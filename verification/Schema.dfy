/** The tables the services share: enumerations, rows, the event log and the database
    state as one value. */
module Schema {
  import opened Wrappers

  /** Row identifiers. One counter hands them out, so no two rows of any tables share one. */
  type Id = nat

  datatype AdoptionStatus = Requested | Pending | Approved | EscrowFunded | Completed | Rejected | Cancelled

  datatype CustodyStatus = Active | Returned | Cancelled | Violation | Pending | Completed

  datatype EscrowStatus = Created | Funded | Released | Refunded | Disputed

  datatype EntityType = UserEntity | PetEntity | AdoptionEntity | CustodyEntity | EscrowEntity

  datatype EventType =
    | UserRegistered
    | PetRegistered
    | PetListed
    | PetAdopted
    | PetCustodyActive
    | PetReturned
    | AdoptionRequested
    | AdoptionApproved
    | AdoptionCompleted
    | CustodyCreated
    | CustodyStarted
    | CustodyCompleted
    | CustodyReturned
    | PetCustodyCancelled
    | CustodyViolation
    | CustodyCancelled
    | CustodyExtended
    | EscrowCreated
    | EscrowWasFunded
    | EscrowReleased
    | EscrowRefunded
    | TrustScoreUpdated

  datatype DepositHandling = DepositReturned | DepositForfeited | DepositPartial

  /** The shapes of payload the services write. `ScoreReport` is what other producers of
      TRUST_SCORE_UPDATED may write: a number or nothing under each key. */
  datatype Payload =
    | AdoptionDetails(adoptionId: Id, adoptionPet: Id, adopterId: Id)
    | AdoptionSettled(settledBy: Id, settledPet: Id)
    | CustodyOpened(openedPet: Id, deposit: Option<int>)
    | CustodyChange(changedPet: Id, holderId: Id, fromStatus: CustodyStatus, toStatus: CustodyStatus,
                    handling: Option<DepositHandling>)
    | EscrowAmount(amount: int)
    | ScoreChange(previousScore: real, newScore: real, change: real)
    | ScoreReport(trustScore: Option<real>, delta: Option<real>)
    | OtherPayload

  datatype Event = Event(
    entityType: EntityType,
    entityId: Id,
    eventType: EventType,
    actor: Option<Id>,
    payload: Payload)

  datatype User = User(trustScore: real)

  datatype Pet = Pet(currentOwner: Option<Id>)

  datatype Adoption = Adoption(status: AdoptionStatus, petId: Id, adopterId: Id, ownerId: Id, escrowId: Option<Id>)

  /** Amounts are whole hundredths, as a Decimal(12, 2) column stores them. */
  datatype Custody = Custody(
    status: CustodyStatus,
    petId: Id,
    holderId: Id,
    depositAmount: Option<int>,
    escrowId: Option<Id>)

  datatype Escrow = Escrow(amount: int, status: EscrowStatus)

  /** A row of the application log, as replay writes it. */
  datatype AuditAction = ReplayApplied | ReplayDryRun | ReplayReadOnly | ReplayNoop

  datatype Audit = Audit(action: AuditAction, aggregateType: EntityType, aggregateId: Id, eventsProcessed: nat,
                         discrepancies: nat)

  datatype State = State(
    users: map<Id, User>,
    pets: map<Id, Pet>,
    adoptions: map<Id, Adoption>,
    custodies: map<Id, Custody>,
    escrows: map<Id, Escrow>,
    log: seq<Event>,
    appLog: seq<Audit>,
    nextId: Id)

  const EMPTY_STATE: State := State(map[], map[], map[], map[], map[], [], [], 0)

  /** Why a call throws. */
  datatype Failure = NotFound | Conflict | BadRequest | InvalidTransition | ForeignKey

  datatype Outcome = Ok | Err(error: Failure) {
    predicate IsFailure() { Err? }

    function PropagateFailure(): Outcome { this }
  }

  /** The committed events of one entity, oldest first. */
  function EventsOf(log: seq<Event>, id: Id): seq<Event> {
    if log == [] then []
    else
      var rest, last := EventsOf(log[..|log| - 1], id), log[|log| - 1];
      if last.entityId == id then rest + [last] else rest
  }
}
