/** Concrete runs from the empty database in which a promise fails. In all of them user 0
    owns pet 1, and what comes next is row 2. */
module WorkflowWitnesses {
  import opened Wrappers
  import opened Schema
  import opened Workflow
  import opened WorkflowInvariant
  import opened WorkflowClosing
  import opened WorkflowRuns
  import opened WorkflowEffects
  import opened WorkflowSettlements
  import opened WorkflowMoney

  lemma {:induction false} AfterSplit(s: State, first: seq<Step>, second: seq<Step>)
    ensures After(s, first + second) == After(After(s, first), second)
    decreases |first|
  {
    if first == [] {
      assert first + second == second;
    } else {
      assert (first + second)[1..] == first[1..] + second;
      AfterSplit(Perform(s, first[0]), first[1..], second);
    }
  }

  // ---- Adoptions --------------------------------------------------------------------

  const PENDING_RUN: seq<Step> :=
    [RegisterUser, AddPet(Some(0)), RequestAdoptionFor(0, 1), UpdateAdoption(2, None, AdoptionStatus.Pending)]

  const REQUEST: Event := Event(AdoptionEntity, 2, AdoptionRequested, Some(0), AdoptionDetails(2, 1, 0))

  const PENDING: State :=
    EMPTY_STATE.(users := map[0 := User(STARTING_SCORE)], pets := map[1 := Pet(Some(0))],
                 adoptions := map[2 := Adoption(AdoptionStatus.Pending, 1, 0, 0, None)],
                 log := [REQUEST], nextId := 3)

  lemma PendingRun()
    ensures After(EMPTY_STATE, PENDING_RUN) == PENDING
  {
  }

  /** An approval by somebody who is not a user: the row is approved, its history is not. */
  lemma UpdateCanTear()
    ensures var s, step := After(EMPTY_STATE, PENDING_RUN), UpdateAdoption(2, Some(9), AdoptionStatus.Approved);
            var s' := Perform(s, step);
            && TornUpdate(s, step) && Call(s, step).outcome.Err?
            && 2 in s'.adoptions && s'.adoptions[2].status.Approved? && Trail(s'.log, 2) == [AdoptionRequested]
  {
    PendingRun();
  }

  const TIED: State :=
    PENDING.(adoptions := map[2 := PENDING.adoptions[2].(escrowId := Some(3))],
             escrows := map[3 := Escrow(100, EscrowStatus.Created)], nextId := 4)

  const TYING_RUN: seq<Step> := [OpenEscrow(100), AttachEscrow(2, 3)]

  lemma TyingRun()
    ensures After(PENDING, TYING_RUN) == TIED
  {
  }

  lemma TiedIsTied()
    ensures TornRelease(TIED, ReleaseOf(3)) && Call(TIED, ReleaseOf(3)).outcome.Err?
    ensures Perform(TIED, ReleaseOf(3)) == TIED.(log := TIED.log + [SettledEvent(TIED, 3, EscrowStatus.Released)])
  {
    assert AdoptionOf(TIED.adoptions, 3, 4) == Some(2);
  }

  /** A release that throws after it has logged the release: its adoption is only pending. */
  lemma ReleaseCanTear()
    ensures var s, step := After(EMPTY_STATE, PENDING_RUN + TYING_RUN), ReleaseOf(3);
            && TornRelease(s, step) && Call(s, step).outcome.Err? && 3 in s.escrows
            && Perform(s, step) == s.(log := s.log + [SettledEvent(s, 3, EscrowStatus.Released)])
  {
    PendingRun();
    TyingRun();
    AfterSplit(EMPTY_STATE, PENDING_RUN, TYING_RUN);
    TiedIsTied();
  }

  const TORN_RUN: seq<Step> := PENDING_RUN + TYING_RUN + [ReleaseOf(3)]

  lemma TornRun()
    ensures After(EMPTY_STATE, TORN_RUN) == TIED.(log := [REQUEST, SettledEvent(TIED, 3, EscrowStatus.Released)])
  {
    PendingRun();
    TyingRun();
    AfterSplit(EMPTY_STATE, PENDING_RUN, TYING_RUN);
    AfterSplit(EMPTY_STATE, PENDING_RUN + TYING_RUN, [ReleaseOf(3)]);
    TiedIsTied();
    assert [ReleaseOf(3)][1..] == [];
  }

  const APPROVED: State :=
    PENDING.(adoptions := map[2 := PENDING.adoptions[2].(status := AdoptionStatus.Approved)],
             log := [REQUEST, Event(AdoptionEntity, 2, AdoptionApproved, Some(0), AdoptionDetails(2, 1, 0))])

  const FUNDED: State :=
    APPROVED.(adoptions := map[2 := Adoption(AdoptionStatus.EscrowFunded, 1, 0, 0, Some(3))],
              escrows := map[3 := Escrow(100, EscrowStatus.Funded)], nextId := 4)

  const RESERVED: State :=
    APPROVED.(adoptions := map[2 := Adoption(AdoptionStatus.Approved, 1, 0, 0, Some(3))],
              escrows := map[3 := Escrow(100, EscrowStatus.Created)], nextId := 4)

  const FUNDING_RUN: seq<Step> := [FundEscrow(3), UpdateAdoption(2, None, AdoptionStatus.EscrowFunded)]

  lemma ApprovingRun()
    ensures After(PENDING, [ApproveAdoptionBy(2, Some(0))]) == APPROVED
  {
  }

  lemma FundingRun()
    ensures After(RESERVED, FUNDING_RUN) == FUNDED
  {
  }

  lemma ReservingRun()
    ensures After(APPROVED, TYING_RUN) == RESERVED
  {
  }

  lemma RefundThenRelease()
    ensures var s' := After(FUNDED, [RefundOf(3), ReleaseOf(3)]);
            && Settlements(FUNDED, [RefundOf(3), ReleaseOf(3)], 3) == 2
            && 2 in s'.adoptions && s'.adoptions[2].status.Completed?
  {
    var s1 := Perform(FUNDED, RefundOf(3));
    assert Settles(FUNDED, RefundOf(3), 3);
    assert s1.adoptions == FUNDED.adoptions && s1.pets == FUNDED.pets && s1.users == FUNDED.users && s1.nextId == 4;
    assert AdoptionOf(s1.adoptions, 3, 4) == Some(2);
    assert Settles(s1, ReleaseOf(3), 3);
    assert [RefundOf(3), ReleaseOf(3)][1..] == [ReleaseOf(3)];
  }

  const APPROVED_RUN: seq<Step> := PENDING_RUN + [ApproveAdoptionBy(2, Some(0))]

  const FUNDED_RUN: seq<Step> := APPROVED_RUN + TYING_RUN + FUNDING_RUN

  lemma FundedRun()
    ensures After(EMPTY_STATE, FUNDED_RUN) == FUNDED
  {
    hide After;
    PendingRun();
    ApprovingRun();
    ReservingRun();
    FundingRun();
    AfterSplit(EMPTY_STATE, PENDING_RUN, [ApproveAdoptionBy(2, Some(0))]);
    AfterSplit(EMPTY_STATE, APPROVED_RUN, TYING_RUN);
    AfterSplit(EMPTY_STATE, APPROVED_RUN + TYING_RUN, FUNDING_RUN);
  }

  /** The escrow of a funded adoption, refunded and then released: both go through, and the
      adoption is completed with the money gone twice. */
  lemma RefundedAdoptionCanComplete()
    ensures var s := After(EMPTY_STATE, FUNDED_RUN);
            var s' := After(s, [RefundOf(3), ReleaseOf(3)]);
            && Settlements(s, [RefundOf(3), ReleaseOf(3)], 3) == 2
            && 2 in s'.adoptions && s'.adoptions[2].status.Completed?
  {
    FundedRun();
    RefundThenRelease();
  }

  // ---- Custodies --------------------------------------------------------------------

  const CUSTODY_RUN: seq<Step> := [RegisterUser, AddPet(Some(0)), CreateCustodyFor(0, 1, false, 7, Some(100))]

  const IN_CUSTODY: State :=
    EMPTY_STATE.(users := map[0 := User(STARTING_SCORE)], pets := map[1 := Pet(Some(0))],
                 custodies := map[3 := Custody(CustodyStatus.Pending, 1, 0, Some(100), Some(2))],
                 escrows := map[2 := Escrow(100, EscrowStatus.Created)],
                 log := [Event(CustodyEntity, 3, CustodyStarted, Some(0), CustodyOpened(1, Some(100)))], nextId := 4)

  lemma CustodyRun()
    ensures After(EMPTY_STATE, CUSTODY_RUN) == IN_CUSTODY
  {
  }

  lemma ReleaseThenCancel()
    ensures var run := [ReleaseOf(2), CloseCustodyAs(3, Cancel(None))];
            Settlements(IN_CUSTODY, run, 2) == 2 && RepaidIn(IN_CUSTODY, run) == 100
  {
    var s1, closing := Settled(IN_CUSTODY, 2, EscrowStatus.Released), CloseCustodyAs(3, Cancel(None));
    assert [ReleaseOf(2), closing][1..] == [closing];
    assert Perform(IN_CUSTODY, ReleaseOf(2)) == s1;
    assert s1.custodies[3] == IN_CUSTODY.custodies[3];
    assert Settles(s1, closing, 2) && Repaid(s1, closing) == 100;
    assert Repaid(IN_CUSTODY, ReleaseOf(2)) == 0;
  }

  /** A custody's escrow released from outside, and refunded when the custody is cancelled. */
  lemma DepositCanBePaidTwice()
    ensures var s := After(EMPTY_STATE, CUSTODY_RUN);
            var run := [ReleaseOf(2), CloseCustodyAs(3, Cancel(None))];
            && 3 in s.custodies && s.custodies[3].escrowId == Some(2)
            && Settlements(s, run, 2) == 2 && RepaidIn(s, run) == 100
  {
    CustodyRun();
    ReleaseThenCancel();
  }

  const RETURN_RUN: seq<Step> := CUSTODY_RUN + [ActivateCustody(3)] + [CloseCustodyAs(3, Return)]

  const RETURNED: State :=
    IN_CUSTODY.(users := map[0 := User(55.0)],
                custodies := map[3 := Custody(CustodyStatus.Returned, 1, 0, Some(100), Some(2))],
                escrows := map[2 := Escrow(100, EscrowStatus.Released)],
                log := [Event(CustodyEntity, 3, CustodyStarted, Some(0), CustodyOpened(1, Some(100))),
                        Event(CustodyEntity, 3, CustodyReturned, Some(0),
                              CustodyChange(1, 0, CustodyStatus.Active, CustodyStatus.Returned, None)),
                        Event(EscrowEntity, 2, EscrowReleased, None, EscrowAmount(100)),
                        Event(UserEntity, 0, TrustScoreUpdated, None, ScoreChange(50.0, 55.0, 5.0))])

  const ACTIVE: State :=
    IN_CUSTODY.(custodies := map[3 := Custody(CustodyStatus.Active, 1, 0, Some(100), Some(2))])

  lemma ActivatingRun()
    ensures After(IN_CUSTODY, [ActivateCustody(3)]) == ACTIVE
  {
  }

  lemma ReturningRun()
    ensures After(ACTIVE, [CloseCustodyAs(3, Return)]) == RETURNED
  {
    ClosingDoes(ACTIVE, 3, Return);
    assert Ended(ACTIVE, 3, Return) == ACTIVE.(custodies := RETURNED.custodies, log := RETURNED.log[..2]);
    assert DepositSettled(Ended(ACTIVE, 3, Return), ACTIVE.custodies[3], Return)
        == RETURNED.(users := ACTIVE.users, log := RETURNED.log[..3]);
    assert [CloseCustodyAs(3, Return)][1..] == [];
  }

  /** A custody opened, activated and returned, with everything as it should be. */
  lemma ReturnRun()
    ensures After(EMPTY_STATE, RETURN_RUN) == RETURNED
  {
    hide After;
    CustodyRun();
    ActivatingRun();
    ReturningRun();
    AfterSplit(EMPTY_STATE, CUSTODY_RUN, [ActivateCustody(3)]);
    AfterSplit(EMPTY_STATE, CUSTODY_RUN + [ActivateCustody(3)], [CloseCustodyAs(3, Return)]);
  }

  /** A score changed from outside: the custody events know nothing of it. */
  lemma ScoreCanBeShifted()
    ensures var s := After(EMPTY_STATE, [RegisterUser, AdjustScore(0, 10.0)]);
            0 in s.users && s.users[0].trustScore == 60.0 && ScoreFold(s.log, 0) == 50.0
  {
  }
}
