/** Whole runs of the workflow: any sequence of service calls and of the changes that
    other code makes, one after the other, from the empty database. */
module WorkflowRuns {
  import opened Wrappers
  import opened Schema
  import opened Workflow
  import opened WorkflowInvariant
  import opened WorkflowFrames
  import opened WorkflowSteps
  import opened WorkflowClosing
  import AdoptionStateMachine
  import CustodyStateMachine

  /** Up to `AdjustScore` the public service calls; after that what none of the services
      does: registering users and pets, activating a custody, and tying a free escrow to an
      adoption or funding one. The adoption edges no service takes of its own accord, to
      PENDING and to ESCROW_FUNDED, are status updates like any other. */
  datatype Step =
    | RequestAdoptionFor(adopter: Id, pet: Id)
    | UpdateAdoption(adoption: Id, actor: Option<Id>, status: AdoptionStatus)
    | ApproveAdoptionBy(adoption: Id, admin: Option<Id>)
    | RejectAdoptionOf(adoption: Id)
    | ReleaseOf(escrow: Id)
    | RefundOf(escrow: Id)
    | CreateCustodyFor(user: Id, pet: Id, startsInPast: bool, durationDays: int, deposit: Option<int>)
    | CloseCustodyAs(custody: Id, how: Closing)
    | OpenEscrow(amount: int)
    | AdjustScore(user: Id, delta: real)
    | RegisterUser
    | AddPet(owner: Option<Id>)
    | ActivateCustody(custody: Id)
    | AttachEscrow(adoption: Id, escrow: Id)
    | FundEscrow(escrow: Id)

  /** What a step does elsewhere than in the services; nothing where its condition fails. */
  function Elsewhere(s: State, step: Step): State {
    match step
    case RegisterUser => s.(users := s.users[s.nextId := User(STARTING_SCORE)], nextId := s.nextId + 1)
    case AddPet(owner) =>
      if owner.Some? && owner.value !in s.users then s
      else s.(pets := s.pets[s.nextId := Pet(owner)], nextId := s.nextId + 1)
    case ActivateCustody(c) =>
      if c in s.custodies && CustodyStateMachine.CanTransition(s.custodies[c].status, CustodyStatus.Active)
      then SetCustody(s, c, CustodyStatus.Active) else s
    case AttachEscrow(a, x) =>
      if a in s.adoptions && s.adoptions[a].escrowId.None? && x in s.escrows && Unowned(s.adoptions, s.custodies, x)
      then s.(adoptions := s.adoptions[a := s.adoptions[a].(escrowId := Some(x))]) else s
    case FundEscrow(x) =>
      if x in s.escrows && s.escrows[x].status.Created? then SetEscrow(s, x, EscrowStatus.Funded) else s
    case _ => s
  }

  function Call(s: State, step: Step): Reply {
    match step
    case RequestAdoptionFor(adopter, pet) => RequestAdoption(s, adopter, pet)
    case UpdateAdoption(a, actor, status) => UpdateAdoptionStatus(s, a, actor, status)
    case ApproveAdoptionBy(a, admin) => ApproveAdoption(s, a, admin)
    case RejectAdoptionOf(a) => RejectAdoption(s, a)
    case ReleaseOf(x) => ReleaseEscrow(s, x)
    case RefundOf(x) => RefundEscrow(s, x)
    case CreateCustodyFor(user, pet, past, days, deposit) => CreateCustody(s, user, pet, past, days, deposit)
    case CloseCustodyAs(c, how) => CloseCustody(s, c, how)
    case OpenEscrow(amount) => Reply(CreateEscrow(s, amount), Ok)
    case AdjustScore(u, delta) => UpdateTrustScore(s, u, delta)
    case _ => Reply(Elsewhere(s, step), Ok)
  }

  /** The state a step leaves, whether or not its call throws. */
  function Perform(s: State, step: Step): State {
    Call(s, step).state
  }

  predicate ByOthers(step: Step) {
    step.RegisterUser? || step.AddPet? || step.ActivateCustody? || step.AttachEscrow? || step.FundEscrow?
  }

  function After(s: State, run: seq<Step>): State
    decreases |run|
  {
    if run == [] then s else After(Perform(s, run[0]), run[1..])
  }

  // ---- What single calls do -----------------------------------------------------

  function RequestedEvent(s: State, adopter: Id, pet: Id): Event {
    Event(AdoptionEntity, s.nextId, AdoptionRequested, Some(adopter), AdoptionDetails(s.nextId, pet, adopter))
  }

  lemma RequestDoes(s: State, adopter: Id, pet: Id)
    ensures var reply := RequestAdoption(s, adopter, pet);
            if reply.outcome.Err? then reply.state == s
            else
              && pet in s.pets && s.pets[pet].currentOwner.Some? && !HasOpenAdoption(s, pet) && adopter in s.users
              && var row := Adoption(AdoptionStatus.Requested, pet, adopter, s.pets[pet].currentOwner.value, None);
                 reply.state == s.(adoptions := s.adoptions[s.nextId := row],
                                   nextId := s.nextId + 1, log := s.log + [RequestedEvent(s, adopter, pet)])
  {
  }

  /** An update is accepted exactly when its transition is allowed, and logs its event
      exactly when there is one and the actor is not an unknown user. */
  predicate Accepted(s: State, adoption: Id, status: AdoptionStatus) {
    adoption in s.adoptions && AdoptionStateMachine.CanTransition(s.adoptions[adoption].status, status)
  }

  predicate Unknown(s: State, actor: Option<Id>) {
    actor.Some? && actor.value !in s.users
  }

  lemma UpdateDoes(s: State, adoption: Id, actor: Option<Id>, status: AdoptionStatus)
    ensures var s' := UpdateAdoptionStatus(s, adoption, actor, status).state;
            if !Accepted(s, adoption, status) then s' == s
            else if StatusEvent(status).None? || Unknown(s, actor) then s' == SetAdoption(s, adoption, status)
            else s' == SetAdoption(s, adoption, status).(
                         log := s.log + [AdoptionEvent(s, adoption, actor, StatusEvent(status).value)])
  {
  }

  lemma ApproveDoes(s: State, adoption: Id, admin: Option<Id>)
    ensures var s' := ApproveAdoption(s, adoption, admin).state;
            if !Accepted(s, adoption, AdoptionStatus.Approved) || Unknown(s, admin) then s' == s
            else s' == SetAdoption(s, adoption, AdoptionStatus.Approved).(
                         log := s.log + [AdoptionEvent(s, adoption, admin, AdoptionApproved)])
  {
  }

  function CompletedEvent(s: State, escrow: Id, adoption: Id): Event
    requires adoption in s.adoptions
  {
    Event(AdoptionEntity, adoption, AdoptionCompleted, None, AdoptionSettled(escrow, s.adoptions[adoption].petId))
  }

  lemma CompletionDoes(s: State, escrow: Id, adoption: Id)
    requires escrow in s.escrows && adoption in s.adoptions
    ensures var row, reply := s.adoptions[adoption], CompleteByRelease(s, escrow, adoption);
            if reply.outcome.Err? then reply.state == s
            else
              && row.status.EscrowFunded? && row.petId in s.pets && row.adopterId in s.users
              && reply.state == SetAdoption(s, adoption, AdoptionStatus.Completed).(
                   log := s.log + [CompletedEvent(s, escrow, adoption)],
                   pets := s.pets[row.petId := Pet(Some(row.adopterId))],
                   escrows := SetEscrow(s, escrow, EscrowStatus.Released).escrows)
  {
  }

  lemma ReleaseDoes(s: State, escrow: Id)
    ensures var s' := Perform(s, ReleaseOf(escrow));
            if escrow !in s.escrows then s' == s
            else
              match AdoptionOf(s.adoptions, escrow, s.nextId)
              case None => s' == Settled(s, escrow, EscrowStatus.Released)
              case Some(a) =>
                var t := s.(log := s.log + [SettledEvent(s, escrow, EscrowStatus.Released)]);
                s' == CompleteByRelease(t, escrow, a).state
  {
  }

  function OpenedEvent(s: State, user: Id, pet: Id, deposit: Option<int>): Event {
    Event(CustodyEntity, InsertCustody(s, user, pet, deposit).nextId - 1, CustodyStarted, Some(user),
          CustodyOpened(pet, deposit))
  }

  function Opened(s: State, user: Id, pet: Id, deposit: Option<int>): State {
    InsertCustody(s, user, pet, deposit).(log := s.log + [OpenedEvent(s, user, pet, deposit)])
  }

  lemma CreateDoes(s: State, user: Id, pet: Id, past: bool, days: int, deposit: Option<int>)
    ensures var reply := CreateCustody(s, user, pet, past, days, deposit);
            if reply.outcome.Err? then reply.state == s
            else user in s.users && pet in s.pets && reply.state == Opened(s, user, pet, deposit)
  {
  }

  // ---- Every step keeps the invariant ------------------------------------------

  lemma OwnersExist(s: State, pet: Id)
    requires Inv(s) && pet in s.pets && s.pets[pet].currentOwner.Some?
    ensures s.pets[pet].currentOwner.value in s.users
  {
    assert Holds(TheReferences, s);
  }

  /** An event about an adoption is one more event of no custody and no pet. */
  lemma AdoptionEventIsLogged(s: State, e: Event)
    requires Inv(s) && e.entityId in s.adoptions
    requires e.eventType.AdoptionRequested? || e.eventType.AdoptionApproved? || e.eventType.AdoptionCompleted?
    ensures Inv(s.(log := s.log + [e]))
  {
    assert Holds(TheIds, s);
    EventIsLogged(s, e);
  }

  lemma RequestKeepsInv(s: State, adopter: Id, pet: Id)
    requires Inv(s)
    ensures Inv(Perform(s, RequestAdoptionFor(adopter, pet)))
  {
    RequestDoes(s, adopter, pet);
    if RequestAdoption(s, adopter, pet).outcome.Ok? {
      OwnersExist(s, pet);
      var row := Adoption(AdoptionStatus.Requested, pet, adopter, s.pets[pet].currentOwner.value, None);
      NewAdoption(s, row);
      AdoptionEventIsLogged(s.(adoptions := s.adoptions[s.nextId := row], nextId := s.nextId + 1),
                            RequestedEvent(s, adopter, pet));
    }
  }

  lemma UpdateKeepsInv(s: State, adoption: Id, actor: Option<Id>, status: AdoptionStatus)
    requires Inv(s)
    ensures Inv(Perform(s, UpdateAdoption(adoption, actor, status)))
  {
    UpdateDoes(s, adoption, actor, status);
    if Accepted(s, adoption, status) {
      AdoptionMoves(s, adoption, status);
      if StatusEvent(status).Some? {
        AdoptionEventIsLogged(SetAdoption(s, adoption, status),
                              AdoptionEvent(s, adoption, actor, StatusEvent(status).value));
      }
    }
  }

  lemma ApproveKeepsInv(s: State, adoption: Id, admin: Option<Id>)
    requires Inv(s)
    ensures Inv(Perform(s, ApproveAdoptionBy(adoption, admin)))
  {
    ApproveDoes(s, adoption, admin);
    if Accepted(s, adoption, AdoptionStatus.Approved) {
      AdoptionMoves(s, adoption, AdoptionStatus.Approved);
      AdoptionEventIsLogged(SetAdoption(s, adoption, AdoptionStatus.Approved),
                            AdoptionEvent(s, adoption, admin, AdoptionApproved));
    }
  }

  /** Completing an adoption by releasing its escrow: the adoption, its event, the pet's
      owner and the escrow change one after the other. */
  lemma CompletionKeepsInv(s: State, escrow: Id, adoption: Id)
    requires Inv(s) && escrow in s.escrows && adoption in s.adoptions
    ensures Inv(CompleteByRelease(s, escrow, adoption).state)
  {
    CompletionDoes(s, escrow, adoption);
    if CompleteByRelease(s, escrow, adoption).outcome.Ok? {
      var row, e := s.adoptions[adoption], CompletedEvent(s, escrow, adoption);
      AdoptionMoves(s, adoption, AdoptionStatus.Completed);
      var s1 := SetAdoption(s, adoption, AdoptionStatus.Completed);
      AdoptionEventIsLogged(s1, e);
      var s2 := s1.(log := s.log + [e]);
      PetChangesHands(s2, row.petId, row.adopterId);
      EscrowMoves(s2.(pets := s.pets[row.petId := Pet(Some(row.adopterId))]), escrow, EscrowStatus.Released);
    }
  }

  lemma ReleaseKeepsInv(s: State, escrow: Id)
    requires Inv(s)
    ensures Inv(Perform(s, ReleaseOf(escrow)))
  {
    if escrow in s.escrows {
      match AdoptionOf(s.adoptions, escrow, s.nextId) {
        case None => EscrowSettles(s, escrow, EscrowStatus.Released);
        case Some(a) =>
          var e := SettledEvent(s, escrow, EscrowStatus.Released);
          EscrowEventIsLogged(s, escrow, e);
          CompletionKeepsInv(s.(log := s.log + [e]), escrow, a);
      }
    }
  }

  lemma RejectKeepsInv(s: State, adoption: Id)
    requires Inv(s)
    ensures Inv(Perform(s, RejectAdoptionOf(adoption)))
  {
    if Accepted(s, adoption, AdoptionStatus.Rejected) {
      AdoptionMoves(s, adoption, AdoptionStatus.Rejected);
    }
  }

  lemma RefundKeepsInv(s: State, escrow: Id)
    requires Inv(s)
    ensures Inv(Perform(s, RefundOf(escrow)))
  {
    if escrow in s.escrows {
      EscrowSettles(s, escrow, EscrowStatus.Refunded);
    }
  }

  lemma CreateKeepsInv(s: State, user: Id, pet: Id, past: bool, days: int, deposit: Option<int>)
    requires Inv(s)
    ensures Inv(Perform(s, CreateCustodyFor(user, pet, past, days, deposit)))
  {
    CreateDoes(s, user, pet, past, days, deposit);
    if CreateCustody(s, user, pet, past, days, deposit).outcome.Ok? {
      OpeningKeepsInv(s, user, pet, deposit);
    }
  }

  lemma AdjustKeepsInv(s: State, user: Id, delta: real)
    requires Inv(s)
    ensures Inv(Perform(s, AdjustScore(user, delta)))
  {
    if user in s.users {
      ScoreChanges(s, user, delta);
    }
  }

  lemma OpeningKeepsInv(s: State, user: Id, pet: Id, deposit: Option<int>)
    requires Inv(s) && user in s.users && pet in s.pets
    ensures Inv(Opened(s, user, pet, deposit))
  {
    var e := OpenedEvent(s, user, pet, deposit);
    match deposit {
      case None => NewCustody(s, Custody(CustodyStatus.Pending, pet, user, None, None), e);
      case Some(amount) =>
        NewEscrow(s, Escrow(amount, EscrowStatus.Created));
        NewCustody(CreateEscrow(s, amount), Custody(CustodyStatus.Pending, pet, user, deposit, Some(s.nextId)), e);
    }
  }

  lemma CloseKeepsInv(s: State, custody: Id, how: Closing)
    requires Inv(s)
    ensures Inv(Perform(s, CloseCustodyAs(custody, how)))
  {
    CloseDoes(s, custody, how);
    if CanClose(s, custody, how) {
      ClosingKeepsInv(s, custody, how);
    }
  }

  lemma OpenEscrowKeepsInv(s: State, amount: int)
    requires Inv(s)
    ensures Inv(Perform(s, OpenEscrow(amount)))
  {
    NewEscrow(s, Escrow(amount, EscrowStatus.Created));
  }

  lemma ElsewhereKeepsInv(s: State, step: Step)
    requires Inv(s) && ByOthers(step)
    ensures Inv(Perform(s, step))
  {
    if Elsewhere(s, step) != s {
      match step {
        case RegisterUser => NewUser(s);
        case AddPet(owner) => NewPet(s, owner);
        case ActivateCustody(c) => CustodyIsActivated(s, c);
        case AttachEscrow(a, x) => EscrowIsTied(s, a, x);
        case FundEscrow(x) => EscrowMoves(s, x, EscrowStatus.Funded);
      }
    }
  }

  /** No step breaks the invariant, whoever takes it and whether or not its call throws. */
  lemma StepKeepsInv(s: State, step: Step)
    requires Inv(s)
    ensures Inv(Perform(s, step))
  {
    hide Perform, Inv;
    match step {
      case RequestAdoptionFor(adopter, pet) => RequestKeepsInv(s, adopter, pet);
      case UpdateAdoption(a, actor, status) => UpdateKeepsInv(s, a, actor, status);
      case ApproveAdoptionBy(a, admin) => ApproveKeepsInv(s, a, admin);
      case RejectAdoptionOf(a) => RejectKeepsInv(s, a);
      case ReleaseOf(x) => ReleaseKeepsInv(s, x);
      case RefundOf(x) => RefundKeepsInv(s, x);
      case CreateCustodyFor(user, pet, past, days, deposit) => CreateKeepsInv(s, user, pet, past, days, deposit);
      case CloseCustodyAs(c, how) => CloseKeepsInv(s, c, how);
      case OpenEscrow(amount) => OpenEscrowKeepsInv(s, amount);
      case AdjustScore(u, delta) => AdjustKeepsInv(s, u, delta);
      case _ => ElsewhereKeepsInv(s, step);
    }
  }

  lemma {:induction false} RunKeepsInv(s: State, run: seq<Step>)
    requires Inv(s)
    ensures Inv(After(s, run))
    decreases |run|
  {
    if run != [] {
      StepKeepsInv(s, run[0]);
      RunKeepsInv(Perform(s, run[0]), run[1..]);
    }
  }

  lemma EmptyIsFine()
    ensures Inv(EMPTY_STATE)
  {
    Fold(EMPTY_STATE);
  }

  /** The invariant holds in every state any run reaches. */
  lemma Reachable(run: seq<Step>)
    ensures Inv(After(EMPTY_STATE, run))
  {
    EmptyIsFine();
    RunKeepsInv(EMPTY_STATE, run);
  }
}
