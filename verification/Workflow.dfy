/** What each service call does to the database, failures and half-done work included.

    A call runs its own transaction (`tx`), whose writes become visible when the call
    ends well and are dropped when it throws. `logEvent`, `releaseEscrow`,
    `refundEscrow` and `updateTrustScore` write through the root client instead, so
    what they wrote stays even if the call throws afterwards. */
module Workflow {
  import opened Wrappers
  import opened Schema
  import AdoptionStateMachine
  import CustodyStateMachine

  datatype Reply = Reply(state: State, outcome: Outcome) {
    predicate IsFailure() { outcome.Err? }

    /** A throw ends the call with what has been written so far. */
    function PropagateFailure(): Reply { this }

    function Extract(): State { state }
  }

  function Fail(s: State, error: Failure): Reply {
    Reply(s, Err(error))
  }

  // ---- Events and trust scores --------------------------------------------

  /** `logEvent`: the actor column references a user. */
  function LogEvent(s: State, e: Event): Reply {
    if e.actor.Some? && e.actor.value !in s.users then Fail(s, ForeignKey)
    else Reply(s.(log := s.log + [e]), Ok)
  }

  function Clamp(score: real): real {
    if score < 0.0 then 0.0 else if score > 100.0 then 100.0 else score
  }

  function ScoreEvent(user: Id, previous: real, delta: real): Event {
    Event(UserEntity, user, TrustScoreUpdated, None, ScoreChange(previous, Clamp(previous + delta), delta))
  }

  function Rescored(s: State, user: Id, delta: real): State
    requires user in s.users
  {
    var previous := s.users[user].trustScore;
    s.(users := s.users[user := User(Clamp(previous + delta))], log := s.log + [ScoreEvent(user, previous, delta)])
  }

  function UpdateTrustScore(s: State, user: Id, delta: real): Reply {
    if user !in s.users then Fail(s, NotFound) else Reply(Rescored(s, user, delta), Ok)
  }

  // ---- Escrow ---------------------------------------------------------------

  /** `createEscrow`: a new escrow, tied to nothing yet and without an event. */
  function CreateEscrow(s: State, amount: int): State {
    s.(escrows := s.escrows[s.nextId := Escrow(amount, EscrowStatus.Created)], nextId := s.nextId + 1)
  }

  /** The adoption an escrow is tied to, looked up by its unique escrow reference. */
  function AdoptionOf(adoptions: map<Id, Adoption>, escrow: Id, below: Id): (r: Option<Id>)
    ensures r.Some? ==> r.value in adoptions && adoptions[r.value].escrowId == Some(escrow)
    ensures r.None? ==> forall a :: a in adoptions && a < below ==> adoptions[a].escrowId != Some(escrow)
  {
    if below == 0 then None
    else if below - 1 in adoptions && adoptions[below - 1].escrowId == Some(escrow) then Some(below - 1)
    else AdoptionOf(adoptions, escrow, below - 1)
  }

  function SettledType(status: EscrowStatus): EventType {
    if status.Released? then EscrowReleased else EscrowRefunded
  }

  function SettledEvent(s: State, escrow: Id, status: EscrowStatus): Event
    requires escrow in s.escrows
  {
    Event(EscrowEntity, escrow, SettledType(status), None, EscrowAmount(s.escrows[escrow].amount))
  }

  function SetEscrow(s: State, escrow: Id, status: EscrowStatus): State
    requires escrow in s.escrows
  {
    s.(escrows := s.escrows[escrow := s.escrows[escrow].(status := status)])
  }

  /** An escrow settled one way or the other, with the event that says so. */
  function Settled(s: State, escrow: Id, status: EscrowStatus): State
    requires escrow in s.escrows
  {
    SetEscrow(s, escrow, status).(log := s.log + [SettledEvent(s, escrow, status)])
  }

  /** The second half of `releaseEscrow`, once the release has been logged and an
      adoption is tied to the escrow. */
  function CompleteByRelease(s: State, escrow: Id, adoption: Id): Reply
    requires escrow in s.escrows && adoption in s.adoptions
  {
    var row := s.adoptions[adoption];
    if !AdoptionStateMachine.CanTransition(row.status, AdoptionStatus.Completed) then Fail(s, InvalidTransition)
    else if row.petId !in s.pets then Fail(s, NotFound)
    else if row.adopterId !in s.users then Fail(s, ForeignKey)
    else
      var t :- LogEvent(s, Event(AdoptionEntity, adoption, AdoptionCompleted, None,
                                 AdoptionSettled(escrow, row.petId)));
      Reply(t.(escrows := s.escrows[escrow := s.escrows[escrow].(status := EscrowStatus.Released)],
               adoptions := s.adoptions[adoption := row.(status := AdoptionStatus.Completed)],
               pets := s.pets[row.petId := Pet(Some(row.adopterId))]), Ok)
  }

  function ReleaseEscrow(s: State, escrow: Id): Reply {
    if escrow !in s.escrows then Fail(s, NotFound)
    else
      match AdoptionOf(s.adoptions, escrow, s.nextId)
      case None => Reply(Settled(s, escrow, EscrowStatus.Released), Ok)
      case Some(adoption) =>
        var t :- LogEvent(s, SettledEvent(s, escrow, EscrowStatus.Released));
        CompleteByRelease(t, escrow, adoption)
  }

  function RefundEscrow(s: State, escrow: Id): Reply {
    if escrow !in s.escrows then Fail(s, NotFound)
    else Reply(Settled(s, escrow, EscrowStatus.Refunded), Ok)
  }

  // ---- Adoption ---------------------------------------------------------------

  predicate HasOpenAdoption(s: State, pet: Id) {
    exists a | a in s.adoptions :: s.adoptions[a].petId == pet && AdoptionStateMachine.Open(s.adoptions[a].status)
  }

  function RequestAdoption(s: State, adopter: Id, pet: Id): Reply {
    if pet !in s.pets then Fail(s, NotFound)
    else if s.pets[pet].currentOwner.None? then Fail(s, Conflict)
    else if HasOpenAdoption(s, pet) then Fail(s, Conflict)
    else if adopter !in s.users then Fail(s, ForeignKey)
    else
      var id := s.nextId;
      var row := Adoption(AdoptionStatus.Requested, pet, adopter, s.pets[pet].currentOwner.value, None);
      var t :- LogEvent(s, Event(AdoptionEntity, id, AdoptionRequested, Some(adopter),
                                 AdoptionDetails(id, pet, adopter)));
      Reply(t.(adoptions := s.adoptions[id := row], nextId := id + 1), Ok)
  }

  function SetAdoption(s: State, adoption: Id, status: AdoptionStatus): State
    requires adoption in s.adoptions
  {
    s.(adoptions := s.adoptions[adoption := s.adoptions[adoption].(status := status)])
  }

  function StatusEvent(status: AdoptionStatus): Option<EventType> {
    match status
    case Approved => Some(AdoptionApproved)
    case Completed => Some(AdoptionCompleted)
    case _ => None
  }

  function AdoptionEvent(s: State, adoption: Id, actor: Option<Id>, eventType: EventType): Event
    requires adoption in s.adoptions
  {
    var row := s.adoptions[adoption];
    Event(AdoptionEntity, adoption, eventType, actor, AdoptionDetails(adoption, row.petId, row.adopterId))
  }

  /** `updateAdoptionStatus` uses no transaction: the row is written for good before the
      event is logged. The actor may be missing, as it is when an adoption is completed
      over HTTP; the event then names none. */
  function UpdateAdoptionStatus(s: State, adoption: Id, actor: Option<Id>, status: AdoptionStatus): Reply {
    if adoption !in s.adoptions then Fail(s, NotFound)
    else if !AdoptionStateMachine.CanTransition(s.adoptions[adoption].status, status) then Fail(s, InvalidTransition)
    else
      var t := SetAdoption(s, adoption, status);
      match StatusEvent(status)
      case None => Reply(t, Ok)
      case Some(eventType) => LogEvent(t, AdoptionEvent(s, adoption, actor, eventType))
  }

  function ApproveAdoption(s: State, adoption: Id, admin: Option<Id>): Reply {
    if adoption !in s.adoptions then Fail(s, NotFound)
    else if !AdoptionStateMachine.CanTransition(s.adoptions[adoption].status, AdoptionStatus.Approved) then
      Fail(s, InvalidTransition)
    else
      var t :- LogEvent(s, AdoptionEvent(s, adoption, admin, AdoptionApproved));
      Reply(t.(adoptions := SetAdoption(s, adoption, AdoptionStatus.Approved).adoptions), Ok)
  }

  function RejectAdoption(s: State, adoption: Id): Reply {
    if adoption !in s.adoptions then Fail(s, NotFound)
    else if !AdoptionStateMachine.CanTransition(s.adoptions[adoption].status, AdoptionStatus.Rejected) then
      Fail(s, InvalidTransition)
    else Reply(SetAdoption(s, adoption, AdoptionStatus.Rejected), Ok)
  }

  // ---- Custody ------------------------------------------------------------------

  predicate HasCompletedAdoption(s: State, pet: Id) {
    exists a | a in s.adoptions :: s.adoptions[a].petId == pet && s.adoptions[a].status.Completed?
  }

  predicate HasActiveCustody(s: State, pet: Id) {
    exists c | c in s.custodies :: s.custodies[c].petId == pet && s.custodies[c].status.Active?
  }

  /** The rows `createCustody` inserts in its transaction. */
  function InsertCustody(s: State, user: Id, pet: Id, deposit: Option<int>): State {
    match deposit
    case None =>
      s.(custodies := s.custodies[s.nextId := Custody(CustodyStatus.Pending, pet, user, None, None)],
         nextId := s.nextId + 1)
    case Some(amount) =>
      var escrow, t := s.nextId, CreateEscrow(s, amount);
      t.(custodies := s.custodies[t.nextId := Custody(CustodyStatus.Pending, pet, user, Some(amount), Some(escrow))],
         nextId := t.nextId + 1)
  }

  /** The checks before a custody is created, in order. */
  function CustodyGuard(s: State, pet: Id, startsInPast: bool, durationDays: int): Outcome {
    if pet !in s.pets then Err(NotFound)
    else if HasCompletedAdoption(s, pet) then Err(BadRequest)
    else if HasOpenAdoption(s, pet) then Err(BadRequest)
    else if HasActiveCustody(s, pet) then Err(BadRequest)
    else if startsInPast then Err(BadRequest)
    else if durationDays < 1 || durationDays > 90 then Err(BadRequest)
    else Ok
  }

  function CreateCustody(s: State, user: Id, pet: Id, startsInPast: bool, durationDays: int,
                         deposit: Option<int>): Reply
  {
    var guard := CustodyGuard(s, pet, startsInPast, durationDays);
    if guard.Err? then Fail(s, guard.error)
    else if user !in s.users then Fail(s, ForeignKey)
    else
      var t := InsertCustody(s, user, pet, deposit);
      LogEvent(t, Event(CustodyEntity, t.nextId - 1, CustodyStarted, Some(user), CustodyOpened(pet, deposit)))
  }

  /** The three ways the service ends a custody. */
  datatype Closing = Return | Violate | Cancel(handling: Option<DepositHandling>)

  function ClosedStatus(how: Closing): CustodyStatus {
    match how
    case Return => CustodyStatus.Returned
    case Violate => CustodyStatus.Violation
    case Cancel(_) => CustodyStatus.Cancelled
  }

  function ClosedEventType(how: Closing): EventType {
    match how
    case Return => CustodyReturned
    case Violate => CustodyViolation
    case Cancel(_) => CustodyCancelled
  }

  predicate CanClose(s: State, custody: Id, how: Closing) {
    custody in s.custodies && CustodyStateMachine.CanTransition(s.custodies[custody].status, ClosedStatus(how))
  }

  /** Recorded in the events of a cancellation; absent means returned. */
  function HandlingOf(how: Closing): Option<DepositHandling> {
    if how.Cancel? then Some(how.handling.GetOr(DepositReturned)) else None
  }

  function ClosedEvent(custody: Id, row: Custody, how: Closing): Event {
    Event(CustodyEntity, custody, ClosedEventType(how), Some(row.holderId),
          CustodyChange(row.petId, row.holderId, row.status, ClosedStatus(how), HandlingOf(how)))
  }

  function PetEvent(row: Custody, how: Closing): Event {
    Event(PetEntity, row.petId, PetCustodyCancelled, Some(row.holderId),
          CustodyChange(row.petId, row.holderId, row.status, ClosedStatus(how), HandlingOf(how)))
  }

  function SettleDeposit(s: State, row: Custody, how: Closing): Reply {
    if row.escrowId.None? then Reply(s, Ok)
    else if how.Return? then ReleaseEscrow(s, row.escrowId.value)
    else RefundEscrow(s, row.escrowId.value)
  }

  function ScoreDelta(how: Closing): real {
    match how
    case Return => 5.0
    case Violate => -15.0
    case Cancel(_) => 0.0
  }

  function AdjustScore(s: State, row: Custody, how: Closing): Reply {
    if how.Cancel? then Reply(s, Ok) else UpdateTrustScore(s, row.holderId, ScoreDelta(how))
  }

  function LogPetCancellation(s: State, row: Custody, how: Closing): Reply {
    if how.Cancel? then LogEvent(s, PetEvent(row, how)) else Reply(s, Ok)
  }

  /** `returnCustody`, `violationCustody` and `cancelCustody`. Only the custody row itself
      waits for the end of the call; everything before it is written at once. */
  function CloseCustody(s: State, custody: Id, how: Closing): Reply {
    if custody !in s.custodies then Fail(s, NotFound)
    else
      var row := s.custodies[custody];
      if !CustodyStateMachine.CanTransition(row.status, ClosedStatus(how)) then Fail(s, InvalidTransition)
      else
        var logged :- LogEvent(s, ClosedEvent(custody, row, how));
        var announced :- LogPetCancellation(logged, row, how);
        var settled :- SettleDeposit(announced, row, how);
        var scored :- AdjustScore(settled, row, how);
        Reply(scored.(custodies := s.custodies[custody := row.(status := ClosedStatus(how))]), Ok)
  }

  // ---- A custody closed completely ---------------------------------------------

  function SettledStatus(how: Closing): EscrowStatus {
    if how.Return? then EscrowStatus.Released else EscrowStatus.Refunded
  }

  function SetCustody(s: State, custody: Id, status: CustodyStatus): State
    requires custody in s.custodies
  {
    s.(custodies := s.custodies[custody := s.custodies[custody].(status := status)])
  }

  /** The custody row closed, with the event that says so. */
  function Ended(s: State, custody: Id, how: Closing): State
    requires custody in s.custodies
  {
    SetCustody(s, custody, ClosedStatus(how)).(log := s.log + [ClosedEvent(custody, s.custodies[custody], how)])
  }

  function Announced(s: State, row: Custody, how: Closing): State {
    if how.Cancel? then s.(log := s.log + [PetEvent(row, how)]) else s
  }

  function DepositSettled(s: State, row: Custody, how: Closing): State {
    if row.escrowId.Some? && row.escrowId.value in s.escrows
    then Settled(s, row.escrowId.value, SettledStatus(how)) else s
  }

  function HolderRescored(s: State, row: Custody, how: Closing): State {
    if how.Cancel? || row.holderId !in s.users then s else Rescored(s, row.holderId, ScoreDelta(how))
  }

  /** Everything a closing is meant to do, done: the custody row, the settled escrow, the
      changed score and all events. */
  function Closed(s: State, custody: Id, how: Closing): State
    requires custody in s.custodies
  {
    var row := s.custodies[custody];
    HolderRescored(DepositSettled(Announced(Ended(s, custody, how), row, how), row, how), row, how)
  }
}
