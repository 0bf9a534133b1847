/** The elementary changes the workflow's calls are made of, each of which keeps the
    invariant. */
module WorkflowSteps {
  import opened Wrappers
  import opened Schema
  import opened Workflow
  import opened WorkflowInvariant
  import opened WorkflowFrames
  import AdoptionStateMachine

  // ---- Events -------------------------------------------------------------------

  /** One more event that starts no custody, reports no score and belongs to no custody. */
  lemma EventIsLogged(s: State, e: Event)
    requires Inv(s) && e.entityId < s.nextId && e.entityId !in s.custodies
    requires e.entityId in s.pets ==> e.eventType == PetCustodyCancelled
    requires !e.eventType.CustodyStarted? && !e.eventType.TrustScoreUpdated?
    ensures Inv(s.(log := s.log + [e]))
  {
    Unfold(s);
    FreshLogged(s.log, s.nextId, e);
    CustodyTrailsLogged(s.custodies, s.log, e);
    PetTrailsLogged(s.pets, s.log, e);
    ScoresLogged(s.users, s.log, e);
    DepositedSnoc(s.log, e);
    Fold(s.(log := s.log + [e]));
  }

  lemma ScoreChanges(s: State, user: Id, delta: real)
    requires Inv(s) && user in s.users
    ensures Inv(Rescored(s, user, delta))
  {
    Unfold(s);
    var e := ScoreEvent(user, s.users[user].trustScore, delta);
    var row := User(Clamp(s.users[user].trustScore + delta));
    KeysKept(s.users, user, row);
    ReferencesUser(s.users, s.pets, s.adoptions, s.custodies, s.escrows, user, row);
    FreshLogged(s.log, s.nextId, e);
    CustodyTrailsLogged(s.custodies, s.log, e);
    PetTrailsLogged(s.pets, s.log, e);
    ScoreIsReported(s.users, s.log, user, delta);
    DepositedSnoc(s.log, e);
    Fold(Rescored(s, user, delta));
  }

  lemma ScoreIsReported(users: map<Id, User>, log: seq<Event>, user: Id, delta: real)
    requires Scores(users, log) && Chained(log) && user in users
    ensures var log' := log + [ScoreEvent(user, users[user].trustScore, delta)];
            Scores(users[user := User(Clamp(users[user].trustScore + delta))], log') && Chained(log')
  {
    HistorySnoc(log, ScoreEvent(user, users[user].trustScore, delta));
    assert (log + [ScoreEvent(user, users[user].trustScore, delta)])[..|log|] == log;
  }

  // ---- Users and pets --------------------------------------------------------------

  lemma NewUser(s: State)
    requires Inv(s)
    ensures Inv(s.(users := s.users[s.nextId := User(STARTING_SCORE)], nextId := s.nextId + 1))
  {
    Unfold(s);
    var row := User(STARTING_SCORE);
    NextIsUnused(s);
    IdsNewUser(s, row);
    ReferencesUser(s.users, s.pets, s.adoptions, s.custodies, s.escrows, s.nextId, row);
    ScoresNewUser(s.users, s.log, s.nextId);
    DepositsExtend(s.custodies, s.nextId);
    Fold(s.(users := s.users[s.nextId := User(STARTING_SCORE)], nextId := s.nextId + 1));
  }

  lemma ScoresNewUser(users: map<Id, User>, log: seq<Event>, u: Id)
    requires Scores(users, log) && u !in users
    ensures Scores(users[u := User(STARTING_SCORE)], log)
  {
  }

  lemma NewPet(s: State, owner: Option<Id>)
    requires Inv(s) && (owner.Some? ==> owner.value in s.users)
    ensures Inv(s.(pets := s.pets[s.nextId := Pet(owner)], nextId := s.nextId + 1))
  {
    Unfold(s);
    NextIsUnused(s);
    IdsNewPet(s, Pet(owner));
    ReferencesPet(s.users, s.pets, s.adoptions, s.custodies, s.escrows, s.nextId, Pet(owner));
    PetTrailsNew(s.pets, s.log, s.nextId, Pet(owner));
    DepositsExtend(s.custodies, s.nextId);
    Fold(s.(pets := s.pets[s.nextId := Pet(owner)], nextId := s.nextId + 1));
  }

  lemma PetChangesHands(s: State, pet: Id, owner: Id)
    requires Inv(s) && pet in s.pets && owner in s.users
    ensures Inv(s.(pets := s.pets[pet := Pet(Some(owner))]))
  {
    Unfold(s);
    KeysKept(s.pets, pet, Pet(Some(owner)));
    ReferencesPet(s.users, s.pets, s.adoptions, s.custodies, s.escrows, pet, Pet(Some(owner)));
    PetTrailsNew(s.pets, s.log, pet, Pet(Some(owner)));
    Fold(s.(pets := s.pets[pet := Pet(Some(owner))]));
  }

  // ---- Adoptions --------------------------------------------------------------------

  lemma NewAdoption(s: State, row: Adoption)
    requires Inv(s) && !HasOpenAdoption(s, row.petId)
    requires row.petId in s.pets && row.adopterId in s.users && row.ownerId in s.users && row.escrowId.None?
    ensures Inv(s.(adoptions := s.adoptions[s.nextId := row], nextId := s.nextId + 1))
  {
    Unfold(s);
    NextIsUnused(s);
    IdsNewAdoption(s, row);
    OneOpenNew(s.adoptions, s.nextId, row);
    OwnedAdoption(s.adoptions, s.custodies, s.nextId, row);
    ReferencesAdoption(s.users, s.pets, s.adoptions, s.custodies, s.escrows, s.nextId, row);
    DepositsExtend(s.custodies, s.nextId);
    Fold(s.(adoptions := s.adoptions[s.nextId := row], nextId := s.nextId + 1));
  }

  lemma AdoptionMoves(s: State, adoption: Id, status: AdoptionStatus)
    requires Inv(s) && adoption in s.adoptions
    requires AdoptionStateMachine.CanTransition(s.adoptions[adoption].status, status)
    ensures Inv(SetAdoption(s, adoption, status))
  {
    Unfold(s);
    var row := s.adoptions[adoption].(status := status);
    KeysKept(s.adoptions, adoption, row);
    OneOpenMoves(s.adoptions, adoption, row);
    OwnedAdoption(s.adoptions, s.custodies, adoption, row);
    ReferencesAdoption(s.users, s.pets, s.adoptions, s.custodies, s.escrows, adoption, row);
    Fold(SetAdoption(s, adoption, status));
  }

  // ---- Escrows -----------------------------------------------------------------------

  /** A new escrow, which belongs to nothing yet. */
  lemma NewEscrow(s: State, row: Escrow)
    requires Inv(s)
    ensures Inv(s.(escrows := s.escrows[s.nextId := row], nextId := s.nextId + 1))
    ensures Unowned(s.adoptions, s.custodies, s.nextId) && Unused(s, s.nextId)
  {
    Unfold(s);
    NextIsUnused(s);
    IdsNewEscrow(s, row);
    ReferencesEscrow(s.users, s.pets, s.adoptions, s.custodies, s.escrows, s.nextId, row);
    DepositsExtend(s.custodies, s.nextId);
    BackedEscrow(s.custodies, s.escrows, s.nextId, row);
    Fold(s.(escrows := s.escrows[s.nextId := row], nextId := s.nextId + 1));
  }

  lemma BackedEscrow(custodies: map<Id, Custody>, escrows: map<Id, Escrow>, x: Id, row: Escrow)
    requires AllBacked(custodies, escrows) && (x in escrows ==> row.amount == escrows[x].amount)
    ensures AllBacked(custodies, escrows[x := row])
  {
  }

  lemma BackedCustody(custodies: map<Id, Custody>, escrows: map<Id, Escrow>, c: Id, row: Custody)
    requires AllBacked(custodies, escrows) && Backed(row, escrows)
    ensures AllBacked(custodies[c := row], escrows)
  {
  }

  lemma EscrowMoves(s: State, escrow: Id, status: EscrowStatus)
    requires Inv(s) && escrow in s.escrows
    ensures Inv(SetEscrow(s, escrow, status))
  {
    Unfold(s);
    var row := s.escrows[escrow].(status := status);
    KeysKept(s.escrows, escrow, row);
    ReferencesEscrow(s.users, s.pets, s.adoptions, s.custodies, s.escrows, escrow, row);
    BackedEscrow(s.custodies, s.escrows, escrow, row);
    Fold(SetEscrow(s, escrow, status));
  }

  lemma EscrowEventIsLogged(s: State, escrow: Id, e: Event)
    requires Inv(s) && escrow in s.escrows && e.entityId == escrow
    requires e.eventType.EscrowReleased? || e.eventType.EscrowRefunded?
    ensures Inv(s.(log := s.log + [e]))
  {
    assert Holds(TheIds, s);
    EventIsLogged(s, e);
  }

  lemma EscrowSettles(s: State, escrow: Id, status: EscrowStatus)
    requires Inv(s) && escrow in s.escrows
    ensures Inv(Settled(s, escrow, status))
  {
    EscrowMoves(s, escrow, status);
    EscrowEventIsLogged(SetEscrow(s, escrow, status), escrow, SettledEvent(s, escrow, status));
  }

  lemma EscrowIsTied(s: State, adoption: Id, escrow: Id)
    requires Inv(s) && adoption in s.adoptions && escrow in s.escrows && Unowned(s.adoptions, s.custodies, escrow)
    ensures Inv(s.(adoptions := s.adoptions[adoption := s.adoptions[adoption].(escrowId := Some(escrow))]))
  {
    Unfold(s);
    var row := s.adoptions[adoption].(escrowId := Some(escrow));
    KeysKept(s.adoptions, adoption, row);
    OneOpenMoves(s.adoptions, adoption, row);
    OwnedAdoption(s.adoptions, s.custodies, adoption, row);
    ReferencesAdoption(s.users, s.pets, s.adoptions, s.custodies, s.escrows, adoption, row);
    Fold(s.(adoptions := s.adoptions[adoption := s.adoptions[adoption].(escrowId := Some(escrow))]));
  }

  // ---- Custodies -----------------------------------------------------------------------

  /** A custody about to be opened, and the event that says so. */
  ghost predicate Opening(s: State, row: Custody, e: Event) {
    && row.status.Pending? && row.petId in s.pets && row.holderId in s.users && Backed(row, s.escrows)
    && (row.escrowId.Some? ==> Unowned(s.adoptions, s.custodies, row.escrowId.value))
    && e.entityId == s.nextId && e.eventType.CustodyStarted?
    && e.payload.CustodyOpened? && e.payload.deposit == row.depositAmount
  }

  lemma OpeningHistories(s: State, row: Custody, e: Event)
    requires Consistent(s) && Opening(s, row, e)
    ensures FreshFrom(s.log + [e], s.nextId + 1)
    ensures CustodyTrails(s.custodies[s.nextId := row], s.log + [e])
    ensures PetTrails(s.pets, s.log + [e])
    ensures Scores(s.users, s.log + [e]) && Chained(s.log + [e])
  {
    NextIsUnused(s);
    FreshShrinks(s.log, s.nextId, s.nextId + 1);
    FreshLogged(s.log, s.nextId + 1, e);
    assert Trail(s.log, s.nextId) + [e.eventType] == [CustodyStarted];
    CustodyTrailsMove(s.custodies, s.log, s.nextId, row, e);
    PetTrailsLogged(s.pets, s.log, e);
    ScoresLogged(s.users, s.log, e);
  }

  lemma NewCustody(s: State, row: Custody, e: Event)
    requires Inv(s) && Opening(s, row, e)
    ensures Inv(s.(custodies := s.custodies[s.nextId := row], nextId := s.nextId + 1, log := s.log + [e]))
  {
    hide EscrowsOwned, CustodyTrails, PetTrails, Scores, Chained, DepositTotal;
    Unfold(s);
    NextIsUnused(s);
    IdsNewCustody(s, row);
    OpeningHistories(s, row, e);
    OwnedCustody(s.adoptions, s.custodies, s.nextId, row);
    ReferencesCustody(s.users, s.pets, s.adoptions, s.custodies, s.escrows, s.nextId, row);
    BackedCustody(s.custodies, s.escrows, s.nextId, row);
    DepositsGrow(s.custodies, s.nextId, row);
    DepositedSnoc(s.log, e);
    Fold(s.(custodies := s.custodies[s.nextId := row], nextId := s.nextId + 1, log := s.log + [e]));
  }

  lemma CustodyIsActivated(s: State, custody: Id)
    requires Inv(s) && custody in s.custodies && s.custodies[custody].status.Pending?
    ensures Inv(SetCustody(s, custody, CustodyStatus.Active))
  {
    hide EscrowsOwned, CustodyTrails, PetTrails, Scores, Chained, DepositTotal;
    Unfold(s);
    var row := s.custodies[custody].(status := CustodyStatus.Active);
    KeysKept(s.custodies, custody, row);
    OwnedCustody(s.adoptions, s.custodies, custody, row);
    ReferencesCustody(s.users, s.pets, s.adoptions, s.custodies, s.escrows, custody, row);
    BackedCustody(s.custodies, s.escrows, custody, row);
    DepositsKept(s.custodies, s.nextId, custody, row);
    CustodyTrailsKept(s.custodies, s.log, custody, row);
    Fold(SetCustody(s, custody, CustodyStatus.Active));
  }

  lemma EndingHistories(s: State, custody: Id, how: Closing)
    requires Consistent(s) && CanClose(s, custody, how)
    ensures FreshFrom(Ended(s, custody, how).log, s.nextId)
    ensures CustodyTrails(Ended(s, custody, how).custodies, Ended(s, custody, how).log)
    ensures PetTrails(s.pets, Ended(s, custody, how).log)
    ensures Scores(s.users, Ended(s, custody, how).log) && Chained(Ended(s, custody, how).log)
  {
    var row := s.custodies[custody].(status := ClosedStatus(how));
    var e := ClosedEvent(custody, s.custodies[custody], how);
    FreshLogged(s.log, s.nextId, e);
    CustodyTrailsMove(s.custodies, s.log, custody, row, e);
    PetTrailsLogged(s.pets, s.log, e);
    ScoresLogged(s.users, s.log, e);
  }

  lemma CustodyEnds(s: State, custody: Id, how: Closing)
    requires Inv(s) && CanClose(s, custody, how)
    ensures Inv(Ended(s, custody, how))
  {
    Unfold(s);
    var row := s.custodies[custody].(status := ClosedStatus(how));
    KeysKept(s.custodies, custody, row);
    EndingHistories(s, custody, how);
    OwnedCustody(s.adoptions, s.custodies, custody, row);
    ReferencesCustody(s.users, s.pets, s.adoptions, s.custodies, s.escrows, custody, row);
    BackedCustody(s.custodies, s.escrows, custody, row);
    DepositsKept(s.custodies, s.nextId, custody, row);
    DepositedSnoc(s.log, ClosedEvent(custody, s.custodies[custody], how));
    Fold(Ended(s, custody, how));
  }
}
