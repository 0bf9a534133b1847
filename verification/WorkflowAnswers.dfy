/** When each call of a service succeeds, with which error it fails otherwise, and what a
    successful one leaves in the tables and the log. */
module WorkflowAnswers {
  import opened Wrappers
  import opened Schema
  import opened Workflow
  import opened WorkflowInvariant
  import opened WorkflowClosing
  import opened WorkflowRuns
  import opened WorkflowSettlements
  import AdoptionStateMachine
  import CustodyStateMachine

  // ---- Adoptions ---------------------------------------------------------------------

  /** The adoption is over. */
  predicate Over(status: AdoptionStatus) {
    status.Completed? || status.Rejected? || status.Cancelled?
  }

  /** A pet can be requested by any user as often as its adoptions come to an end. */
  lemma RequestAnswers(s: State, adopter: Id, pet: Id)
    ensures var outcome := RequestAdoption(s, adopter, pet).outcome;
            var free := pet in s.pets && s.pets[pet].currentOwner.Some?
                        && forall a :: a in s.adoptions && s.adoptions[a].petId == pet ==> Over(s.adoptions[a].status);
            && (outcome == Ok <==> free && adopter in s.users)
            && (outcome == Err(NotFound) <==> pet !in s.pets)
            && (outcome == Err(Conflict) <==> pet in s.pets && !free)
            && (outcome == Err(ForeignKey) <==> free && adopter !in s.users)
  {
  }

  lemma RequestLeaves(s: State, adopter: Id, pet: Id)
    requires RequestAdoption(s, adopter, pet).outcome.Ok?
    ensures pet in s.pets && s.pets[pet].currentOwner.Some?
    ensures var id, owner := s.nextId, s.pets[pet].currentOwner.value;
            RequestAdoption(s, adopter, pet).state
            == s.(adoptions := s.adoptions[id := Adoption(AdoptionStatus.Requested, pet, adopter, owner, None)],
                  log := s.log + [Event(AdoptionEntity, id, AdoptionRequested, Some(adopter),
                                        AdoptionDetails(id, pet, adopter))],
                  nextId := id + 1)
  {
  }

  /** A status update goes through when its transition is allowed and, where it logs an event,
      its actor is missing or a user. */
  lemma UpdateAnswers(s: State, adoption: Id, actor: Option<Id>, status: AdoptionStatus)
    ensures var outcome := UpdateAdoptionStatus(s, adoption, actor, status).outcome;
            var allowed := adoption in s.adoptions
                           && AdoptionStateMachine.CanTransition(s.adoptions[adoption].status, status);
            var logs := status.Approved? || status.Completed?;
            var known := actor.None? || actor.value in s.users;
            && (outcome == Ok <==> allowed && (logs ==> known))
            && (outcome == Err(NotFound) <==> adoption !in s.adoptions)
            && (outcome == Err(InvalidTransition) <==> adoption in s.adoptions && !allowed)
            && (outcome == Err(ForeignKey) <==> allowed && logs && !known)
  {
  }

  lemma UpdateLeaves(s: State, adoption: Id, actor: Option<Id>, status: AdoptionStatus)
    requires UpdateAdoptionStatus(s, adoption, actor, status).outcome.Ok?
    ensures adoption in s.adoptions
    ensures var row, s' := s.adoptions[adoption], UpdateAdoptionStatus(s, adoption, actor, status).state;
            var payload := AdoptionDetails(adoption, row.petId, row.adopterId);
            && s' == s.(adoptions := s.adoptions[adoption := row.(status := status)], log := s'.log)
            && s'.log == (if status.Approved? then
                            s.log + [Event(AdoptionEntity, adoption, AdoptionApproved, actor, payload)]
                          else if status.Completed? then
                            s.log + [Event(AdoptionEntity, adoption, AdoptionCompleted, actor, payload)]
                          else s.log)
  {
  }

  /** Only a pending adoption can be approved, and only a requested or pending one rejected. */
  lemma ApproveAnswers(s: State, adoption: Id, admin: Option<Id>)
    ensures var outcome := ApproveAdoption(s, adoption, admin).outcome;
            var pending := adoption in s.adoptions && s.adoptions[adoption].status.Pending?;
            var known := admin.None? || admin.value in s.users;
            && (outcome == Ok <==> pending && known)
            && (outcome == Err(NotFound) <==> adoption !in s.adoptions)
            && (outcome == Err(InvalidTransition) <==> adoption in s.adoptions && !pending)
            && (outcome == Err(ForeignKey) <==> pending && !known)
  {
  }

  lemma ApproveLeaves(s: State, adoption: Id, admin: Option<Id>)
    requires ApproveAdoption(s, adoption, admin).outcome.Ok?
    ensures ApproveAdoption(s, adoption, admin).state
         == UpdateAdoptionStatus(s, adoption, admin, AdoptionStatus.Approved).state
  {
  }

  lemma RejectAnswers(s: State, adoption: Id)
    ensures var outcome := RejectAdoption(s, adoption).outcome;
            var open := adoption in s.adoptions
                        && (s.adoptions[adoption].status.Requested? || s.adoptions[adoption].status.Pending?);
            && (outcome == Ok <==> open)
            && (outcome == Err(NotFound) <==> adoption !in s.adoptions)
            && (outcome == Err(InvalidTransition) <==> adoption in s.adoptions && !open)
    ensures RejectAdoption(s, adoption).outcome.Ok? ==>
              RejectAdoption(s, adoption).state
              == UpdateAdoptionStatus(s, adoption, None, AdoptionStatus.Rejected).state
  {
  }

  // ---- Custodies -----------------------------------------------------------------------

  /** Adoptions in progress or completed and active custodies keep a pet from custody. */
  lemma CreateAnswers(s: State, user: Id, pet: Id, past: bool, days: int, deposit: Option<int>)
    ensures var outcome := CreateCustody(s, user, pet, past, days, deposit).outcome;
            var free := && (forall a :: a in s.adoptions && s.adoptions[a].petId == pet ==>
                              s.adoptions[a].status.Rejected? || s.adoptions[a].status.Cancelled?)
                        && (forall c :: c in s.custodies && s.custodies[c].petId == pet ==>
                              !s.custodies[c].status.Active?);
            var fine := pet in s.pets && free && !past && 1 <= days <= 90;
            && (outcome == Ok <==> fine && user in s.users)
            && (outcome == Err(NotFound) <==> pet !in s.pets)
            && (outcome == Err(BadRequest) <==> pet in s.pets && !fine)
            && (outcome == Err(ForeignKey) <==> fine && user !in s.users)
  {
    hide LogEvent;
    GuardAnswers(s, pet, past, days);
    if user in s.users {
      OpeningIsLogged(s, user, pet, deposit);
    }
  }

  lemma GuardAnswers(s: State, pet: Id, past: bool, days: int)
    ensures var guard := CustodyGuard(s, pet, past, days);
            var free := && (forall a :: a in s.adoptions && s.adoptions[a].petId == pet ==>
                              s.adoptions[a].status.Rejected? || s.adoptions[a].status.Cancelled?)
                        && (forall c :: c in s.custodies && s.custodies[c].petId == pet ==>
                              !s.custodies[c].status.Active?);
            && (guard == Ok <==> pet in s.pets && free && !past && 1 <= days <= 90)
            && (guard == Err(NotFound) <==> pet !in s.pets)
            && (guard in {Ok, Err(NotFound), Err(BadRequest)})
  {
  }

  lemma OpeningIsLogged(s: State, user: Id, pet: Id, deposit: Option<int>)
    requires user in s.users
    ensures LogEvent(InsertCustody(s, user, pet, deposit), OpenedEvent(s, user, pet, deposit)).outcome.Ok?
  {
  }

  lemma CreateLeaves(s: State, user: Id, pet: Id, past: bool, days: int, deposit: Option<int>)
    requires CreateCustody(s, user, pet, past, days, deposit).outcome.Ok?
    ensures var s' := CreateCustody(s, user, pet, past, days, deposit).state;
            var id := if deposit.None? then s.nextId else s.nextId + 1;
            var escrow := if deposit.None? then None else Some(s.nextId);
            s' == s.(custodies := s.custodies[id := Custody(CustodyStatus.Pending, pet, user, deposit, escrow)],
                     escrows := if deposit.None? then s.escrows
                                else s.escrows[s.nextId := Escrow(deposit.value, EscrowStatus.Created)],
                     log := s.log + [Event(CustodyEntity, id, CustodyStarted, Some(user), CustodyOpened(pet, deposit))],
                     nextId := id + 1)
  {
    CreateDoes(s, user, pet, past, days, deposit);
  }

  /** A custody is returned or violated while active, and cancelled while pending or active. */
  lemma CloseAnswers(s: State, custody: Id, how: Closing)
    requires Inv(s)
    ensures var outcome := CloseCustody(s, custody, how).outcome;
            var open := && custody in s.custodies
                        && var status := s.custodies[custody].status;
                           status.Active? || (how.Cancel? && status.Pending?);
            && (outcome == Ok <==> open)
            && (outcome == Err(NotFound) <==> custody !in s.custodies)
            && (outcome == Err(InvalidTransition) <==> custody in s.custodies && !open)
  {
    CloseDoes(s, custody, how);
    hide CloseCustody, Closed, Inv;
    if custody in s.custodies {
      CustodyStateMachine.TransitionsAre(s.custodies[custody].status, ClosedStatus(how));
    }
  }

  /** What the log gets first: the end of the custody with its outcome, and for a cancellation
      what was said about the deposit, RETURNED if nothing was, once more for the pet. */
  lemma CloseLeaves(s: State, custody: Id, how: Closing)
    requires Inv(s) && CanClose(s, custody, how)
    ensures var row, s' := s.custodies[custody], CloseCustody(s, custody, how).state;
            var to := if how.Return? then CustodyStatus.Returned
                      else if how.Violate? then CustodyStatus.Violation else CustodyStatus.Cancelled;
            var eventType := if how.Return? then CustodyReturned
                             else if how.Violate? then CustodyViolation else EventType.CustodyCancelled;
            var handling := if !how.Cancel? then None
                            else if how.handling.None? then Some(DepositReturned) else how.handling;
            var change := CustodyChange(row.petId, row.holderId, row.status, to, handling);
            && s'.custodies == s.custodies[custody := row.(status := to)]
            && |s'.log| > |s.log|
            && s'.log[|s.log|] == Event(CustodyEntity, custody, eventType, Some(row.holderId), change)
            && (how.Cancel? ==>
                  && |s'.log| > |s.log| + 1
                  && s'.log[|s.log| + 1]
                  == Event(PetEntity, row.petId, PetCustodyCancelled, Some(row.holderId), change))
  {
    CloseDoes(s, custody, how);
    hide CloseCustody, Inv;
    DepositIsFree(s, custody);
    ClosedTables(s, custody, how);
    var row := s.custodies[custody];
    var announced := Announced(Ended(s, custody, how), row, how);
    LogsOn(announced, row, how);
    assert announced.log <= Closed(s, custody, how).log;
    assert announced.log[|s.log|] == ClosedEvent(custody, row, how);
  }

  lemma LogsOn(s: State, row: Custody, how: Closing)
    ensures s.log <= HolderRescored(DepositSettled(s, row, how), row, how).log
  {
  }

  /** A return earns its holder 5, a violation costs 15, a cancellation neither. */
  lemma CloseScores(s: State, custody: Id, how: Closing)
    requires Inv(s) && CanClose(s, custody, how)
    ensures var holder, s' := s.custodies[custody].holderId, CloseCustody(s, custody, how).state;
            && holder in s.users
            && s'.users == (if how.Return? then UpdateTrustScore(s, holder, 5.0).state.users
                            else if how.Violate? then UpdateTrustScore(s, holder, -15.0).state.users
                            else s.users)
  {
    CloseDoes(s, custody, how);
    hide CloseCustody, Inv;
    DepositIsFree(s, custody);
  }

  // ---- Scores and escrows ------------------------------------------------------------------

  /** The score becomes the sum, or the bound the sum lies beyond. */
  lemma ScoreAnswers(s: State, user: Id, delta: real)
    ensures UpdateTrustScore(s, user, delta).outcome == if user in s.users then Ok else Err(NotFound)
    ensures user in s.users ==>
              var before := s.users[user].trustScore;
              var sum := before + delta;
              var score := if sum < 0.0 then 0.0 else if sum > 100.0 then 100.0 else sum;
              var e := Event(UserEntity, user, TrustScoreUpdated, None, ScoreChange(before, score, delta));
              UpdateTrustScore(s, user, delta).state == s.(users := s.users[user := User(score)], log := s.log + [e])
  {
  }

  lemma RefundAnswers(s: State, escrow: Id)
    ensures RefundEscrow(s, escrow).outcome == if escrow in s.escrows then Ok else Err(NotFound)
    ensures escrow in s.escrows ==>
              var amount := s.escrows[escrow].amount;
              RefundEscrow(s, escrow).state
              == s.(escrows := s.escrows[escrow := Escrow(amount, EscrowStatus.Refunded)],
                    log := s.log + [Event(EscrowEntity, escrow, EscrowRefunded, None, EscrowAmount(amount))])
  {
  }

  /** A release goes through unless the escrow is missing or tied to an adoption that is not
      funded. */
  lemma ReleaseAnswers(s: State, escrow: Id)
    requires Inv(s)
    ensures var outcome := ReleaseEscrow(s, escrow).outcome;
            var ready := forall a :: a in s.adoptions && s.adoptions[a].escrowId == Some(escrow) ==>
                           s.adoptions[a].status.EscrowFunded?;
            && (outcome == Ok <==> escrow in s.escrows && ready)
            && (outcome == Err(NotFound) <==> escrow !in s.escrows)
            && (outcome == Err(InvalidTransition) <==> escrow in s.escrows && !ready)
  {
    if a :| a in s.adoptions && s.adoptions[a].escrowId == Some(escrow) {
      TiedIsFound(s, a, escrow);
      OnlyOneTied(s, a, escrow);
      AdoptionStateMachine.TransitionsAre(s.adoptions[a].status, AdoptionStatus.Completed);
    }
  }

  lemma OnlyOneTied(s: State, a: Id, escrow: Id)
    requires Inv(s) && Tied(s, a, escrow)
    ensures forall b :: b in s.adoptions && s.adoptions[b].escrowId == Some(escrow) ==> b == a
  {
    assert Holds(TheOwnership, s);
  }

  /** Releasing an escrow of no adoption settles it and logs that, and nothing else. */
  lemma FreeReleaseLeaves(s: State, escrow: Id)
    requires escrow in s.escrows && forall a :: a in s.adoptions ==> s.adoptions[a].escrowId != Some(escrow)
    ensures var amount := s.escrows[escrow].amount;
            ReleaseEscrow(s, escrow).state
            == s.(escrows := s.escrows[escrow := Escrow(amount, EscrowStatus.Released)],
                  log := s.log + [Event(EscrowEntity, escrow, EscrowReleased, None, EscrowAmount(amount))])
  {
  }

  /** Releasing an escrow of a funded adoption completes it and hands the pet to the adopter. */
  lemma TiedReleaseLeaves(s: State, adoption: Id, escrow: Id)
    requires Inv(s) && Tied(s, adoption, escrow) && s.adoptions[adoption].status.EscrowFunded?
    ensures escrow in s.escrows
    ensures var row, amount := s.adoptions[adoption], s.escrows[escrow].amount;
            ReleaseEscrow(s, escrow).state
            == s.(escrows := s.escrows[escrow := Escrow(amount, EscrowStatus.Released)],
                  adoptions := s.adoptions[adoption := row.(status := AdoptionStatus.Completed)],
                  pets := s.pets[row.petId := Pet(Some(row.adopterId))],
                  log := s.log + [Event(EscrowEntity, escrow, EscrowReleased, None, EscrowAmount(amount)),
                                  Event(AdoptionEntity, adoption, AdoptionCompleted, None,
                                        AdoptionSettled(escrow, row.petId))])
  {
    TiedIsFound(s, adoption, escrow);
    var e := Event(EscrowEntity, escrow, EscrowReleased, None, EscrowAmount(s.escrows[escrow].amount));
    var f := Event(AdoptionEntity, adoption, AdoptionCompleted, None,
                   AdoptionSettled(escrow, s.adoptions[adoption].petId));
    assert s.log + [e] + [f] == s.log + [e, f];
  }
}
