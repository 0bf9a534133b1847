/** The services as they run: methods that read the committed tables, write them in
    place, and keep a transaction's own writes back until the call ends well. Each is
    proved to do to the database exactly what its function in `Workflow` says. */
module Services {
  import opened Wrappers
  import opened Schema
  import opened Workflow
  import AdoptionStateMachine
  import CustodyStateMachine

  /** The committed tables (`PrismaService`). */
  class Database {
    var users: map<Id, User>
    var pets: map<Id, Pet>
    var adoptions: map<Id, Adoption>
    var custodies: map<Id, Custody>
    var escrows: map<Id, Escrow>
    var log: seq<Event>
    var appLog: seq<Audit>
    var nextId: Id

    constructor ()
      ensures Snapshot() == EMPTY_STATE
    {
      users, pets, adoptions, custodies, escrows := map[], map[], map[], map[], map[];
      log, appLog, nextId := [], [], 0;
    }

    function Snapshot(): State
      reads this
    {
      State(users, pets, adoptions, custodies, escrows, log, appLog, nextId)
    }
  }

  class EventsService {
    const db: Database

    constructor (db: Database)
      ensures this.db == db
    {
      this.db := db;
    }

    method LogEvent(e: Event) returns (r: Outcome)
      modifies db
      ensures Reply(db.Snapshot(), r) == Workflow.LogEvent(old(db.Snapshot()), e)
    {
      if e.actor.Some? && e.actor.value !in db.users {
        return Err(ForeignKey);
      }
      db.log := db.log + [e];
      return Ok;
    }
  }

  class UsersService {
    const db: Database
    const events: EventsService

    constructor (db: Database, events: EventsService)
      requires events.db == db
      ensures this.db == db && Wired()
    {
      this.db, this.events := db, events;
    }

    predicate Wired() { events.db == db }

    method UpdateTrustScore(userId: Id, delta: real) returns (r: Outcome)
      requires Wired()
      modifies db
      ensures Reply(db.Snapshot(), r) == Workflow.UpdateTrustScore(old(db.Snapshot()), userId, delta)
    {
      if userId !in db.users {
        return Err(NotFound);
      }
      var user := db.users[userId];
      var sum := user.trustScore + delta;
      var atMost := if sum < 100.0 then sum else 100.0;
      var newScore := if atMost > 0.0 then atMost else 0.0;
      db.users := db.users[userId := User(newScore)];
      :- events.LogEvent(Event(UserEntity, userId, TrustScoreUpdated, None,
                               ScoreChange(user.trustScore, newScore, delta)));
      return Ok;
    }
  }

  class EscrowService {
    const db: Database
    const events: EventsService

    constructor (db: Database, events: EventsService)
      requires events.db == db
      ensures this.db == db && Wired()
    {
      this.db, this.events := db, events;
    }

    predicate Wired() { events.db == db }

    /** Outside a transaction; inside one the row waits for the transaction's end. */
    method CreateEscrow(amount: int) returns (escrowId: Id)
      modifies db
      ensures db.Snapshot() == Workflow.CreateEscrow(old(db.Snapshot()), amount)
      ensures escrowId == old(db.nextId) && escrowId in db.escrows
    {
      escrowId := db.nextId;
      db.escrows := db.escrows[escrowId := Escrow(amount, EscrowStatus.Created)];
      db.nextId := escrowId + 1;
    }

    method FindAdoption(escrowId: Id) returns (r: Option<Id>)
      ensures r == AdoptionOf(db.adoptions, escrowId, db.nextId)
    {
      var id := db.nextId;
      while id > 0
        invariant AdoptionOf(db.adoptions, escrowId, db.nextId) == AdoptionOf(db.adoptions, escrowId, id)
      {
        if id - 1 in db.adoptions && db.adoptions[id - 1].escrowId == Some(escrowId) {
          return Some(id - 1);
        }
        id := id - 1;
      }
      return None;
    }

    method ReleaseEscrow(escrowId: Id) returns (r: Outcome)
      requires Wired()
      modifies db
      ensures Reply(db.Snapshot(), r) == Workflow.ReleaseEscrow(old(db.Snapshot()), escrowId)
    {
      if escrowId !in db.escrows {
        return Err(NotFound);
      }
      var escrow := db.escrows[escrowId];
      var tied := FindAdoption(escrowId);
      // Held back until the call ends well.
      var updatedEscrow := escrow.(status := EscrowStatus.Released);
      :- events.LogEvent(Event(EscrowEntity, escrowId, EscrowReleased, None, EscrowAmount(escrow.amount)));
      if tied.Some? {
        var adoption := db.adoptions[tied.value];
        if !AdoptionStateMachine.CanTransition(adoption.status, AdoptionStatus.Completed) {
          return Err(InvalidTransition);
        }
        if adoption.petId !in db.pets {
          return Err(NotFound);
        }
        if adoption.adopterId !in db.users {
          return Err(ForeignKey);
        }
        :- events.LogEvent(Event(AdoptionEntity, tied.value, AdoptionCompleted, None,
                                 AdoptionSettled(escrowId, adoption.petId)));
        db.adoptions := db.adoptions[tied.value := adoption.(status := AdoptionStatus.Completed)];
        db.pets := db.pets[adoption.petId := Pet(Some(adoption.adopterId))];
      }
      db.escrows := db.escrows[escrowId := updatedEscrow];
      return Ok;
    }

    method RefundEscrow(escrowId: Id) returns (r: Outcome)
      requires Wired()
      modifies db
      ensures Reply(db.Snapshot(), r) == Workflow.RefundEscrow(old(db.Snapshot()), escrowId)
    {
      if escrowId !in db.escrows {
        return Err(NotFound);
      }
      var escrow := db.escrows[escrowId];
      var updatedEscrow := escrow.(status := EscrowStatus.Refunded);
      :- events.LogEvent(Event(EscrowEntity, escrowId, EscrowRefunded, None, EscrowAmount(escrow.amount)));
      db.escrows := db.escrows[escrowId := updatedEscrow];
      return Ok;
    }
  }

  class AdoptionService {
    const db: Database
    const events: EventsService

    constructor (db: Database, events: EventsService)
      requires events.db == db
      ensures this.db == db && Wired()
    {
      this.db, this.events := db, events;
    }

    predicate Wired() { events.db == db }

    method RequestAdoption(adopterId: Id, petId: Id) returns (r: Outcome)
      requires Wired()
      modifies db
      ensures Reply(db.Snapshot(), r) == Workflow.RequestAdoption(old(db.Snapshot()), adopterId, petId)
    {
      if petId !in db.pets {
        return Err(NotFound);
      }
      var pet := db.pets[petId];
      if pet.currentOwner.None? {
        return Err(Conflict);
      }
      var activeAdoption := exists a | a in db.adoptions ::
        db.adoptions[a].petId == petId && AdoptionStateMachine.Open(db.adoptions[a].status);
      if activeAdoption {
        return Err(Conflict);
      }
      if adopterId !in db.users {
        return Err(ForeignKey);
      }
      var id := db.nextId;
      var adoption := Adoption(AdoptionStatus.Requested, petId, adopterId, pet.currentOwner.value, None);
      :- events.LogEvent(Event(AdoptionEntity, id, AdoptionRequested, Some(adopterId),
                               AdoptionDetails(id, petId, adopterId)));
      db.adoptions := db.adoptions[id := adoption];
      db.nextId := id + 1;
      return Ok;
    }

    method UpdateAdoptionStatus(adoptionId: Id, actorId: Option<Id>, status: AdoptionStatus) returns (r: Outcome)
      requires Wired()
      modifies db
      ensures Reply(db.Snapshot(), r) == Workflow.UpdateAdoptionStatus(old(db.Snapshot()), adoptionId, actorId, status)
    {
      if adoptionId !in db.adoptions {
        return Err(NotFound);
      }
      var existing := db.adoptions[adoptionId];
      if !AdoptionStateMachine.CanTransition(existing.status, status) {
        return Err(InvalidTransition);
      }
      var updated := existing.(status := status);
      db.adoptions := db.adoptions[adoptionId := updated];
      var eventType := StatusEvent(status);
      if eventType.Some? {
        :- events.LogEvent(Event(AdoptionEntity, adoptionId, eventType.value, actorId,
                                 AdoptionDetails(adoptionId, updated.petId, updated.adopterId)));
      }
      return Ok;
    }

    method ApproveAdoption(adoptionId: Id, adminId: Option<Id>) returns (r: Outcome)
      requires Wired()
      modifies db
      ensures Reply(db.Snapshot(), r) == Workflow.ApproveAdoption(old(db.Snapshot()), adoptionId, adminId)
    {
      if adoptionId !in db.adoptions {
        return Err(NotFound);
      }
      var adoption := db.adoptions[adoptionId];
      if !AdoptionStateMachine.CanTransition(adoption.status, AdoptionStatus.Approved) {
        return Err(InvalidTransition);
      }
      var updated := adoption.(status := AdoptionStatus.Approved);
      :- events.LogEvent(Event(AdoptionEntity, adoptionId, AdoptionApproved, adminId,
                               AdoptionDetails(adoptionId, adoption.petId, adoption.adopterId)));
      db.adoptions := db.adoptions[adoptionId := updated];
      return Ok;
    }

    method RejectAdoption(adoptionId: Id) returns (r: Outcome)
      requires Wired()
      modifies db
      ensures Reply(db.Snapshot(), r) == Workflow.RejectAdoption(old(db.Snapshot()), adoptionId)
    {
      if adoptionId !in db.adoptions {
        return Err(NotFound);
      }
      var adoption := db.adoptions[adoptionId];
      if !AdoptionStateMachine.CanTransition(adoption.status, AdoptionStatus.Rejected) {
        return Err(InvalidTransition);
      }
      db.adoptions := db.adoptions[adoptionId := adoption.(status := AdoptionStatus.Rejected)];
      return Ok;
    }
  }

  class CustodyService {
    const db: Database
    const events: EventsService
    const escrows: EscrowService
    const users: UsersService

    constructor (db: Database, events: EventsService, escrows: EscrowService, users: UsersService)
      requires events.db == db && escrows.db == db && users.db == db
      requires escrows.Wired() && users.Wired()
      ensures this.db == db && Wired()
    {
      this.db, this.events, this.escrows, this.users := db, events, escrows, users;
    }

    predicate Wired() {
      events.db == db && escrows.db == db && users.db == db && escrows.Wired() && users.Wired()
    }

    /** The checks at the head of `createCustody`. */
    method CheckCustody(petId: Id, startsInPast: bool, durationDays: int) returns (r: Outcome)
      ensures r == CustodyGuard(db.Snapshot(), petId, startsInPast, durationDays)
    {
      if petId !in db.pets {
        return Err(NotFound);
      }
      var completedAdoption := exists a | a in db.adoptions ::
        db.adoptions[a].petId == petId && db.adoptions[a].status.Completed?;
      if completedAdoption {
        return Err(BadRequest);
      }
      var activeAdoption := exists a | a in db.adoptions ::
        db.adoptions[a].petId == petId && AdoptionStateMachine.Open(db.adoptions[a].status);
      if activeAdoption {
        return Err(BadRequest);
      }
      var activeCustody := exists c | c in db.custodies ::
        db.custodies[c].petId == petId && db.custodies[c].status.Active?;
      if activeCustody {
        return Err(BadRequest);
      }
      if startsInPast {
        return Err(BadRequest);
      }
      if durationDays < 1 || durationDays > 90 {
        return Err(BadRequest);
      }
      return Ok;
    }

    method CreateCustody(userId: Id, petId: Id, startsInPast: bool, durationDays: int, depositAmount: Option<int>)
      returns (r: Outcome)
      requires Wired()
      modifies db
      ensures Reply(db.Snapshot(), r)
           == Workflow.CreateCustody(old(db.Snapshot()), userId, petId, startsInPast, durationDays, depositAmount)
    {
      var guarded := CheckCustody(petId, startsInPast, durationDays);
      :- guarded;
      // One transaction: the escrow, when there is a deposit, and the custody.
      var escrowId: Option<Id> := None;
      var escrows, id := db.escrows, db.nextId;
      if depositAmount.Some? {
        escrowId := Some(id);
        escrows := escrows[id := Escrow(depositAmount.value, EscrowStatus.Created)];
        id := id + 1;
      }
      if userId !in db.users {
        return Err(ForeignKey);
      }
      db.escrows := escrows;
      db.custodies := db.custodies[id := Custody(CustodyStatus.Pending, petId, userId, depositAmount, escrowId)];
      db.nextId := id + 1;
      :- events.LogEvent(Event(CustodyEntity, id, CustodyStarted, Some(userId), CustodyOpened(petId, depositAmount)));
      return Ok;
    }

    method ReturnCustody(custodyId: Id) returns (r: Outcome)
      requires Wired()
      modifies db
      ensures Reply(db.Snapshot(), r) == CloseCustody(old(db.Snapshot()), custodyId, Return)
    {
      if custodyId !in db.custodies {
        return Err(NotFound);
      }
      var custody := db.custodies[custodyId];
      if !CustodyStateMachine.CanTransition(custody.status, CustodyStatus.Returned) {
        return Err(InvalidTransition);
      }
      var updatedCustody := custody.(status := CustodyStatus.Returned);
      :- events.LogEvent(Event(CustodyEntity, custodyId, CustodyReturned, Some(custody.holderId),
                               CustodyChange(custody.petId, custody.holderId, custody.status,
                                             CustodyStatus.Returned, None)));
      if custody.escrowId.Some? {
        :- escrows.ReleaseEscrow(custody.escrowId.value);
      }
      :- users.UpdateTrustScore(custody.holderId, 5.0);
      db.custodies := db.custodies[custodyId := updatedCustody];
      return Ok;
    }

    method ViolationCustody(custodyId: Id) returns (r: Outcome)
      requires Wired()
      modifies db
      ensures Reply(db.Snapshot(), r) == CloseCustody(old(db.Snapshot()), custodyId, Violate)
    {
      if custodyId !in db.custodies {
        return Err(NotFound);
      }
      var custody := db.custodies[custodyId];
      if !CustodyStateMachine.CanTransition(custody.status, CustodyStatus.Violation) {
        return Err(InvalidTransition);
      }
      var updatedCustody := custody.(status := CustodyStatus.Violation);
      :- events.LogEvent(Event(CustodyEntity, custodyId, CustodyViolation, Some(custody.holderId),
                               CustodyChange(custody.petId, custody.holderId, custody.status,
                                             CustodyStatus.Violation, None)));
      if custody.escrowId.Some? {
        :- escrows.RefundEscrow(custody.escrowId.value);
      }
      :- users.UpdateTrustScore(custody.holderId, -15.0);
      db.custodies := db.custodies[custodyId := updatedCustody];
      return Ok;
    }

    method CancelCustody(custodyId: Id, depositHandling: Option<DepositHandling>) returns (r: Outcome)
      requires Wired()
      modifies db
      ensures Reply(db.Snapshot(), r) == CloseCustody(old(db.Snapshot()), custodyId, Cancel(depositHandling))
    {
      if custodyId !in db.custodies {
        return Err(NotFound);
      }
      var custody := db.custodies[custodyId];
      if !CustodyStateMachine.CanTransition(custody.status, CustodyStatus.Cancelled) {
        return Err(InvalidTransition);
      }
      var updatedCustody := custody.(status := CustodyStatus.Cancelled);
      var effective := Some(depositHandling.GetOr(DepositReturned));
      :- events.LogEvent(Event(CustodyEntity, custodyId, EventType.CustodyCancelled, Some(custody.holderId),
                               CustodyChange(custody.petId, custody.holderId, custody.status,
                                             CustodyStatus.Cancelled, effective)));
      :- events.LogEvent(Event(PetEntity, custody.petId, PetCustodyCancelled, Some(custody.holderId),
                               CustodyChange(custody.petId, custody.holderId, custody.status,
                                             CustodyStatus.Cancelled, effective)));
      if custody.escrowId.Some? {
        :- escrows.RefundEscrow(custody.escrowId.value);
      }
      db.custodies := db.custodies[custodyId := updatedCustody];
      return Ok;
    }
  }
}
