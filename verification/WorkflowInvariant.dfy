/** What holds of the tables and the event log in every state the workflow reaches, and
    what holds of single rows as long as callers take care. */
module WorkflowInvariant {
  import opened Wrappers
  import opened Schema
  import opened Workflow
  import opened Sums
  import AdoptionStateMachine
  import Reducers

  // ---- Histories read off the log --------------------------------------------

  /** The types of an entity's events, oldest first. */
  function Trail(log: seq<Event>, id: Id): seq<EventType> {
    if log == [] then []
    else
      var rest, last := Trail(log[..|log| - 1], id), log[|log| - 1];
      if last.entityId == id then rest + [last.eventType] else rest
  }

  /** The events a custody has behind it, given its status. */
  function CustodyTrail(status: CustodyStatus): seq<EventType> {
    match status
    case Pending => [CustodyStarted]
    case Active => [CustodyStarted]
    case Returned => [CustodyStarted, CustodyReturned]
    case Violation => [CustodyStarted, CustodyViolation]
    case Cancelled => [CustodyStarted, EventType.CustodyCancelled]
    case Completed => []
  }

  function AdoptionTrail(status: AdoptionStatus): seq<EventType> {
    match status
    case Requested => [AdoptionRequested]
    case Pending => [AdoptionRequested]
    case Rejected => [AdoptionRequested]
    case Approved => [AdoptionRequested, AdoptionApproved]
    case EscrowFunded => [AdoptionRequested, AdoptionApproved]
    case Cancelled => [AdoptionRequested, AdoptionApproved]
    case Completed => [AdoptionRequested, AdoptionApproved, AdoptionCompleted]
  }

  /** The events of a custody's escrow: none until it is settled, then one. */
  function EscrowTrail(status: EscrowStatus): seq<EventType> {
    match status
    case Released => [EscrowReleased]
    case Refunded => [EscrowRefunded]
    case _ => []
  }

  const STARTING_SCORE: real := 50.0

  /** A user's score computed from the custody events alone: +5 for each return and -15
      for each violation by that user, in log order, clamped at every step. */
  function ScoreFold(log: seq<Event>, user: Id): real {
    if log == [] then STARTING_SCORE
    else
      var before, last := ScoreFold(log[..|log| - 1], user), log[|log| - 1];
      if last.actor != Some(user) then before
      else if last.eventType.CustodyReturned? then Clamp(before + 5.0)
      else if last.eventType.CustodyViolation? then Clamp(before - 15.0)
      else before
  }

  /** The score the last TRUST_SCORE_UPDATED event of a user reports. */
  function LastScore(log: seq<Event>, user: Id): real {
    if log == [] then STARTING_SCORE
    else
      var before, last := LastScore(log[..|log| - 1], user), log[|log| - 1];
      if last.entityId == user && last.eventType.TrustScoreUpdated? && last.payload.ScoreChange?
      then last.payload.newScore else before
  }

  /** The TRUST_SCORE_UPDATED events link up: each starts from the score its predecessor
      for the same user reported, and reports that score changed and clamped. */
  ghost predicate Chained(log: seq<Event>) {
    log == []
    || var init, last := log[..|log| - 1], log[|log| - 1];
       && Chained(init)
       && (last.eventType.TrustScoreUpdated? ==>
             && last.payload.ScoreChange?
             && last.payload.previousScore == LastScore(init, last.entityId)
             && last.payload.newScore == Clamp(last.payload.previousScore + last.payload.change))
  }

  /** Deposits ever opened, from the log alone. */
  function Deposited(log: seq<Event>): int {
    if log == [] then 0
    else
      var last := log[|log| - 1];
      Deposited(log[..|log| - 1])
      + (if last.eventType.CustodyStarted? && last.payload.CustodyOpened? then last.payload.deposit.GetOr(0) else 0)
  }

  /** What the log says was paid out of the given escrows by events of one type. */
  function PaidOut(log: seq<Event>, escrows: set<Id>, eventType: EventType): int {
    if log == [] then 0
    else
      var last := log[|log| - 1];
      PaidOut(log[..|log| - 1], escrows, eventType)
      + (if last.eventType == eventType && last.entityId in escrows && last.payload.EscrowAmount?
         then last.payload.amount else 0)
  }

  predicate Held(status: EscrowStatus) { status.Created? || status.Funded? }

  function HeldFor(custodies: map<Id, Custody>, escrows: map<Id, Escrow>, custody: Id): int {
    if custody in custodies && custodies[custody].escrowId.Some? && custodies[custody].escrowId.value in escrows
       && Held(escrows[custodies[custody].escrowId.value].status)
    then escrows[custodies[custody].escrowId.value].amount
    else 0
  }

  /** The money in the unsettled escrows of custodies, from the tables alone. */
  function HeldTotal(custodies: map<Id, Custody>, escrows: map<Id, Escrow>, nextId: Id): int {
    Sum((c: Id) => HeldFor(custodies, escrows, c), nextId)
  }

  function DepositOf(custodies: map<Id, Custody>, custody: Id): int {
    if custody in custodies then custodies[custody].depositAmount.GetOr(0) else 0
  }

  /** The deposits on all custody rows. */
  function DepositTotal(custodies: map<Id, Custody>, nextId: Id): int {
    Sum((c: Id) => DepositOf(custodies, c), nextId)
  }

  function CustodyEscrows(custodies: map<Id, Custody>): set<Id> {
    set c | c in custodies && custodies[c].escrowId.Some? :: custodies[c].escrowId.value
  }

  /** What custody escrows hold and have paid out, beyond what was ever deposited. */
  function Surplus(s: State): int {
    var own := CustodyEscrows(s.custodies);
    HeldTotal(s.custodies, s.escrows, s.nextId)
    + PaidOut(s.log, own, EscrowReleased) + PaidOut(s.log, own, EscrowRefunded) - Deposited(s.log)
  }

  // ---- The invariant -----------------------------------------------------------

  /** No identifier names rows of two tables, and the ones still to come name none. */
  ghost predicate KeysApart(users: set<Id>, pets: set<Id>, adoptions: set<Id>, custodies: set<Id>, escrows: set<Id>,
                            nextId: Id)
  {
    && users !! pets !! adoptions !! custodies !! escrows
    && (forall i :: i in users ==> i < nextId)
    && (forall i :: i in pets ==> i < nextId)
    && (forall i :: i in adoptions ==> i < nextId)
    && (forall i :: i in custodies ==> i < nextId)
    && (forall i :: i in escrows ==> i < nextId)
  }

  ghost predicate FreshFrom(log: seq<Event>, nextId: Id) {
    forall i :: i >= nextId ==> Trail(log, i) == []
  }

  ghost predicate Ids(s: State) {
    && KeysApart(s.users.Keys, s.pets.Keys, s.adoptions.Keys, s.custodies.Keys, s.escrows.Keys, s.nextId)
    && FreshFrom(s.log, s.nextId)
  }

  ghost predicate References(users: map<Id, User>, pets: map<Id, Pet>, adoptions: map<Id, Adoption>,
                             custodies: map<Id, Custody>, escrows: map<Id, Escrow>)
  {
    && (forall p :: p in pets && pets[p].currentOwner.Some? ==> pets[p].currentOwner.value in users)
    && (forall a :: a in adoptions ==>
          && adoptions[a].petId in pets && adoptions[a].adopterId in users && adoptions[a].ownerId in users
          && (adoptions[a].escrowId.Some? ==> adoptions[a].escrowId.value in escrows))
    && (forall c :: c in custodies ==>
          && custodies[c].petId in pets && custodies[c].holderId in users
          && (custodies[c].escrowId.Some? ==> custodies[c].escrowId.value in escrows))
  }

  /** An escrow belongs to at most one custody or adoption. */
  ghost predicate EscrowsOwned(adoptions: map<Id, Adoption>, custodies: map<Id, Custody>) {
    && (forall c, d | c in custodies && d in custodies && custodies[c].escrowId.Some? ::
          custodies[c].escrowId == custodies[d].escrowId ==> c == d)
    && (forall a, b | a in adoptions && b in adoptions && adoptions[a].escrowId.Some? ::
          adoptions[a].escrowId == adoptions[b].escrowId ==> a == b)
    && (forall c, a | c in custodies && a in adoptions && custodies[c].escrowId.Some? ::
          adoptions[a].escrowId != custodies[c].escrowId)
  }

  /** A custody has an escrow exactly when it has a deposit, of the same amount. */
  predicate Backed(row: Custody, escrows: map<Id, Escrow>) {
    && (row.depositAmount.Some? <==> row.escrowId.Some?)
    && (row.escrowId.Some? ==>
          row.escrowId.value in escrows && escrows[row.escrowId.value].amount == row.depositAmount.value)
  }

  ghost predicate AllBacked(custodies: map<Id, Custody>, escrows: map<Id, Escrow>) {
    forall c :: c in custodies ==> Backed(custodies[c], escrows)
  }

  ghost predicate CustodyTrails(custodies: map<Id, Custody>, log: seq<Event>) {
    forall c :: c in custodies ==>
      !custodies[c].status.Completed? && Trail(log, c) == CustodyTrail(custodies[c].status)
  }

  ghost predicate OneOpenPerPet(adoptions: map<Id, Adoption>) {
    forall a, b | a in adoptions && b in adoptions && adoptions[a].petId == adoptions[b].petId ::
      AdoptionStateMachine.Open(adoptions[a].status) && AdoptionStateMachine.Open(adoptions[b].status) ==> a == b
  }

  /** Events on pets are records of cancelled custodies and nothing else. */
  ghost predicate PetTrails(pets: map<Id, Pet>, log: seq<Event>) {
    forall p, t :: p in pets && t in Trail(log, p) ==> t == PetCustodyCancelled
  }

  function ScoreOf(users: map<Id, User>, user: Id): real {
    if user in users then users[user].trustScore else STARTING_SCORE
  }

  /** Every score is the last one reported, and within bounds. */
  ghost predicate Scores(users: map<Id, User>, log: seq<Event>) {
    forall u: Id :: LastScore(log, u) == ScoreOf(users, u) && 0.0 <= LastScore(log, u) <= 100.0
  }

  /** The deposits ever logged are those on the custody rows. */
  predicate Booked(custodies: map<Id, Custody>, log: seq<Event>, nextId: Id) {
    Deposited(log) == DepositTotal(custodies, nextId)
  }

  ghost predicate TablesFit(s: State) {
    && Ids(s)
    && References(s.users, s.pets, s.adoptions, s.custodies, s.escrows)
    && EscrowsOwned(s.adoptions, s.custodies)
    && AllBacked(s.custodies, s.escrows)
    && OneOpenPerPet(s.adoptions)
  }

  ghost predicate LogFits(s: State) {
    && CustodyTrails(s.custodies, s.log)
    && PetTrails(s.pets, s.log)
    && Scores(s.users, s.log)
    && Chained(s.log)
    && Booked(s.custodies, s.log, s.nextId)
  }

  /** All of it, part by part. */
  ghost predicate Consistent(s: State) {
    TablesFit(s) && LogFits(s)
  }

  datatype Part =
    | TheIds | TheReferences | TheOwnership | TheDeposits | TheCustodies | TheOpenAdoptions | ThePets | TheScores
    | TheChain | TheBooks

  ghost predicate Holds(part: Part, s: State) {
    match part
    case TheIds => Ids(s)
    case TheReferences => References(s.users, s.pets, s.adoptions, s.custodies, s.escrows)
    case TheOwnership => EscrowsOwned(s.adoptions, s.custodies)
    case TheDeposits => AllBacked(s.custodies, s.escrows)
    case TheCustodies => CustodyTrails(s.custodies, s.log)
    case TheOpenAdoptions => OneOpenPerPet(s.adoptions)
    case ThePets => PetTrails(s.pets, s.log)
    case TheScores => Scores(s.users, s.log)
    case TheChain => Chained(s.log)
    case TheBooks => Booked(s.custodies, s.log, s.nextId)
  }

  /** The invariant. It says the same as `Consistent`, one part at a time, so that a proof
      about several states can name the part it needs. */
  ghost predicate Inv(s: State) {
    forall part: Part :: Holds(part, s)
  }

  lemma UnfoldTables(s: State)
    requires Inv(s)
    ensures TablesFit(s)
  {
    assert Holds(TheIds, s);
    assert Holds(TheReferences, s);
    assert Holds(TheOwnership, s);
    assert Holds(TheDeposits, s);
    assert Holds(TheOpenAdoptions, s);
  }

  lemma UnfoldLog(s: State)
    requires Inv(s)
    ensures LogFits(s)
  {
    assert Holds(TheCustodies, s);
    assert Holds(ThePets, s);
    assert Holds(TheScores, s);
    assert Holds(TheChain, s);
    assert Holds(TheBooks, s);
  }

  lemma Unfold(s: State)
    requires Inv(s)
    ensures Consistent(s)
  {
    UnfoldTables(s);
    UnfoldLog(s);
  }

  lemma Fold(s: State)
    requires Consistent(s)
    ensures Inv(s)
  {
  }

  // ---- Promises ----------------------------------------------------------------

  /** What the services keep of a single row only while no caller gets in the way. */
  datatype Promise =
    | HistoryOf(adoption: Id)
    | SettlementOf(custody: Id)
    | RecordOf(escrow: Id)
    | EarningsOf(user: Id)

  /** How custody status decides escrow status. */
  predicate SettlementMatches(custody: CustodyStatus, escrow: EscrowStatus) {
    match custody
    case Pending => Held(escrow)
    case Active => Held(escrow)
    case Returned => escrow.Released?
    case Violation => escrow.Refunded?
    case Cancelled => escrow.Refunded?
    case Completed => false
  }

  /** A custody's escrow has the status that goes with the custody's, and the events that
      go with its own. */
  predicate SettlementFits(row: Custody, escrows: map<Id, Escrow>, log: seq<Event>) {
    row.escrowId.Some? ==>
      && row.escrowId.value in escrows
      && var escrow := escrows[row.escrowId.value];
         SettlementMatches(row.status, escrow.status) && Trail(log, row.escrowId.value) == EscrowTrail(escrow.status)
  }

  /** What the events of an escrow should replay to: its status once settled, else nothing. */
  function EscrowRecord(status: EscrowStatus): Reducers.Record {
    if Held(status) then map[] else map[Reducers.StatusField := Reducers.EscrowValue(status)]
  }

  function EscrowReplay(log: seq<Event>, escrow: Id): Reducers.Record {
    Reducers.ReplayTypes(EscrowEntity, Trail(log, escrow))
  }

  predicate Kept(p: Promise, s: State) {
    match p
    case HistoryOf(a) => a in s.adoptions ==> Trail(s.log, a) == AdoptionTrail(s.adoptions[a].status)
    case SettlementOf(c) => c in s.custodies ==> SettlementFits(s.custodies[c], s.escrows, s.log)
    case RecordOf(x) => x in s.escrows ==> EscrowReplay(s.log, x) == EscrowRecord(s.escrows[x].status)
    case EarningsOf(u) => ScoreFold(s.log, u) == LastScore(s.log, u)
  }

  // ---- One more event ------------------------------------------------------------

  lemma TrailSnoc(log: seq<Event>, e: Event)
    ensures forall i: Id :: Trail(log + [e], i) == Trail(log, i) + (if e.entityId == i then [e.eventType] else [])
  {
    assert (log + [e])[..|log|] == log;
  }

  /** What an event adds to the histories behind scores and deposits. */
  lemma HistorySnoc(log: seq<Event>, e: Event)
    ensures forall u: Id :: ScoreFold(log + [e], u)
                     == (if e.actor != Some(u) then ScoreFold(log, u)
                         else if e.eventType.CustodyReturned? then Clamp(ScoreFold(log, u) + 5.0)
                         else if e.eventType.CustodyViolation? then Clamp(ScoreFold(log, u) - 15.0)
                         else ScoreFold(log, u))
    ensures forall u: Id :: LastScore(log + [e], u)
                     == (if e.entityId == u && e.eventType.TrustScoreUpdated? && e.payload.ScoreChange?
                         then e.payload.newScore else LastScore(log, u))
    ensures !e.eventType.TrustScoreUpdated? && Chained(log) ==> Chained(log + [e])
  {
    assert (log + [e])[..|log|] == log;
  }

  lemma DepositedSnoc(log: seq<Event>, e: Event)
    ensures Deposited(log + [e])
         == Deposited(log)
          + (if e.eventType.CustodyStarted? && e.payload.CustodyOpened? then e.payload.deposit.GetOr(0) else 0)
  {
    assert (log + [e])[..|log|] == log;
  }

  lemma PaidOutSnoc(log: seq<Event>, e: Event, escrows: set<Id>, t: EventType)
    ensures PaidOut(log + [e], escrows, t)
         == PaidOut(log, escrows, t)
          + (if e.eventType == t && e.entityId in escrows && e.payload.EscrowAmount? then e.payload.amount else 0)
  {
    assert (log + [e])[..|log|] == log;
  }

  /** An escrow without events has paid out nothing. */
  lemma {:induction false} PaidOutNew(log: seq<Event>, escrows: set<Id>, id: Id, t: EventType)
    requires Trail(log, id) == []
    ensures PaidOut(log, escrows + {id}, t) == PaidOut(log, escrows, t)
    decreases |log|
  {
    if log != [] {
      PaidOutNew(log[..|log| - 1], escrows, id, t);
    }
  }
}
