/** Deposits over whole runs: what custody escrows hold and have paid out is what was
    deposited, plus what was paid out of escrows that had been settled before. */
module WorkflowMoney {
  import opened Wrappers
  import opened Schema
  import opened Workflow
  import opened WorkflowInvariant
  import opened WorkflowFrames
  import opened WorkflowSteps
  import opened WorkflowClosing
  import opened WorkflowRuns
  import opened WorkflowPromises

  /** The custody escrow a step pays out of. */
  function PaysFrom(s: State, step: Step): Option<Id> {
    match step
    case ReleaseOf(x) => if x in CustodyEscrows(s.custodies) then Some(x) else None
    case RefundOf(x) => if x in CustodyEscrows(s.custodies) then Some(x) else None
    case CloseCustodyAs(c, how) => if CanClose(s, c, how) then s.custodies[c].escrowId else None
    case _ => None
  }

  /** What a step pays out of a custody escrow that is settled already. */
  function Repaid(s: State, step: Step): int {
    match PaysFrom(s, step)
    case None => 0
    case Some(x) => if x in s.escrows && !Held(s.escrows[x].status) then s.escrows[x].amount else 0
  }

  function RepaidIn(s: State, run: seq<Step>): int
    decreases |run|
  {
    if run == [] then 0 else Repaid(s, run[0]) + RepaidIn(Perform(s, run[0]), run[1..])
  }

  // ---- Changes that move no custody money -----------------------------------------------

  /** Only custodies, escrows, the log and the next identifier matter. */
  lemma SurplusDepends(s: State, s': State)
    requires s'.custodies == s.custodies && s'.escrows == s.escrows && s'.log == s.log && s'.nextId == s.nextId
    ensures Surplus(s') == Surplus(s)
  {
  }

  lemma SurplusLogged(s: State, e: Event)
    requires !e.eventType.CustodyStarted?
    requires e.eventType.EscrowReleased? || e.eventType.EscrowRefunded? ==> e.entityId !in CustodyEscrows(s.custodies)
    ensures Surplus(s.(log := s.log + [e])) == Surplus(s)
  {
    hide HeldTotal, PaidOut, Deposited, CustodyEscrows;
    DepositedSnoc(s.log, e);
    PaidOutSnoc(s.log, e, CustodyEscrows(s.custodies), EscrowReleased);
    PaidOutSnoc(s.log, e, CustodyEscrows(s.custodies), EscrowRefunded);
  }

  lemma SurplusRescored(s: State, user: Id, delta: real)
    requires user in s.users
    ensures Surplus(Rescored(s, user, delta)) == Surplus(s)
  {
    var e := ScoreEvent(user, s.users[user].trustScore, delta);
    SurplusLogged(s, e);
    SurplusDepends(s.(log := s.log + [e]), Rescored(s, user, delta));
  }

  /** The next identifier goes to something that is no custody. */
  lemma SurplusNext(s: State, s': State)
    requires s.nextId !in s.custodies && s'.nextId == s.nextId + 1
    requires s'.custodies == s.custodies && s'.escrows == s.escrows && s'.log == s.log
    ensures Surplus(s') == Surplus(s)
  {
  }

  /** A custody's status matters to neither side. */
  lemma SurplusCustodyMoves(s: State, custody: Id, status: CustodyStatus)
    requires custody in s.custodies
    ensures Surplus(SetCustody(s, custody, status)) == Surplus(s)
  {
    hide PaidOut, Deposited, HeldTotal;
    var row := s.custodies[custody].(status := status);
    EscrowsOfCustodiesKept(s.custodies, custody, row);
    HeldSame(s.custodies, s.escrows, s.custodies[custody := row], s.escrows, s.nextId);
  }

  /** An escrow of no custody changes, or appears. */
  lemma SurplusOtherEscrow(s: State, escrow: Id, row: Escrow)
    requires escrow !in CustodyEscrows(s.custodies)
    ensures Surplus(s.(escrows := s.escrows[escrow := row])) == Surplus(s)
  {
    HeldSame(s.custodies, s.escrows, s.custodies, s.escrows[escrow := row], s.nextId);
  }

  lemma SurplusFunded(s: State, escrow: Id)
    requires escrow in s.escrows && s.escrows[escrow].status.Created?
    ensures Surplus(SetEscrow(s, escrow, EscrowStatus.Funded)) == Surplus(s)
  {
    HeldSame(s.custodies, s.escrows, s.custodies, SetEscrow(s, escrow, EscrowStatus.Funded).escrows, s.nextId);
  }

  // ---- Settlements -------------------------------------------------------------------------

  /** Of custodies, only the one the escrow belongs to holds less when it is settled. */
  lemma HeldSettles(s: State, custody: Id, status: EscrowStatus)
    requires Inv(s) && custody in s.custodies && s.custodies[custody].escrowId.Some?
    requires s.custodies[custody].escrowId.value in s.escrows && (status.Released? || status.Refunded?)
    ensures var x := s.custodies[custody].escrowId.value;
            HeldTotal(s.custodies, SetEscrow(s, x, status).escrows, s.nextId)
            == HeldTotal(s.custodies, s.escrows, s.nextId)
             - (if Held(s.escrows[x].status) then s.escrows[x].amount else 0)
  {
    var x := s.custodies[custody].escrowId.value;
    assert Holds(TheIds, s);
    assert Holds(TheOwnership, s);
    HeldChange(s.custodies, s.escrows, SetEscrow(s, x, status).escrows, s.nextId, custody);
  }

  /** Settling a custody's escrow moves its amount from held to paid out, if it was held. */
  lemma SurplusSettles(s: State, custody: Id, status: EscrowStatus)
    requires Inv(s) && custody in s.custodies && s.custodies[custody].escrowId.Some?
    requires s.custodies[custody].escrowId.value in s.escrows && (status.Released? || status.Refunded?)
    ensures var x := s.custodies[custody].escrowId.value;
            Surplus(Settled(s, x, status))
            == Surplus(s) + (if Held(s.escrows[x].status) then 0 else s.escrows[x].amount)
  {
    hide Inv, HeldTotal, PaidOut, Deposited;
    var x, own := s.custodies[custody].escrowId.value, CustodyEscrows(s.custodies);
    assert x in own;
    DepositedSnoc(s.log, SettledEvent(s, x, status));
    PaidOutSnoc(s.log, SettledEvent(s, x, status), own, EscrowReleased);
    PaidOutSnoc(s.log, SettledEvent(s, x, status), own, EscrowRefunded);
    HeldSettles(s, custody, status);
  }

  lemma SurplusSettlesOther(s: State, escrow: Id, status: EscrowStatus)
    requires escrow in s.escrows && escrow !in CustodyEscrows(s.custodies)
    ensures Surplus(Settled(s, escrow, status)) == Surplus(s)
  {
    SurplusOtherEscrow(s, escrow, s.escrows[escrow].(status := status));
    SurplusLogged(SetEscrow(s, escrow, status), SettledEvent(s, escrow, status));
  }

  /** The custody whose escrow this is. */
  lemma CustodyWith(s: State, escrow: Id) returns (custody: Id)
    requires escrow in CustodyEscrows(s.custodies)
    ensures custody in s.custodies && s.custodies[custody].escrowId == Some(escrow)
  {
    custody :| custody in s.custodies && s.custodies[custody].escrowId == Some(escrow);
  }

  lemma RefundSurplus(s: State, escrow: Id)
    requires Inv(s)
    ensures Surplus(Perform(s, RefundOf(escrow))) == Surplus(s) + Repaid(s, RefundOf(escrow))
  {
    hide Surplus;
    if escrow in CustodyEscrows(s.custodies) {
      var c := CustodyWith(s, escrow);
      DepositIsFree(s, c);
      SurplusSettles(s, c, EscrowStatus.Refunded);
    } else if escrow in s.escrows {
      SurplusSettlesOther(s, escrow, EscrowStatus.Refunded);
    }
  }

  /** Completing an adoption, an escrow of no custody in hand. */
  lemma CompletionSurplus(s: State, escrow: Id, adoption: Id)
    requires escrow in s.escrows && escrow !in CustodyEscrows(s.custodies) && adoption in s.adoptions
    ensures Surplus(CompleteByRelease(s, escrow, adoption).state) == Surplus(s)
  {
    CompletionDoes(s, escrow, adoption);
    if CompleteByRelease(s, escrow, adoption).outcome.Ok? {
      SurplusOtherEscrow(s, escrow, s.escrows[escrow].(status := EscrowStatus.Released));
      SurplusLogged(SetEscrow(s, escrow, EscrowStatus.Released), CompletedEvent(s, escrow, adoption));
    }
  }

  lemma ReleaseSurplus(s: State, escrow: Id)
    requires Inv(s)
    ensures Surplus(Perform(s, ReleaseOf(escrow))) == Surplus(s) + Repaid(s, ReleaseOf(escrow))
  {
    hide Surplus;
    if escrow in CustodyEscrows(s.custodies) {
      var c := CustodyWith(s, escrow);
      DepositIsFree(s, c);
      SurplusSettles(s, c, EscrowStatus.Released);
    } else if escrow in s.escrows {
      match AdoptionOf(s.adoptions, escrow, s.nextId) {
        case None => SurplusSettlesOther(s, escrow, EscrowStatus.Released);
        case Some(a) =>
          var e := SettledEvent(s, escrow, EscrowStatus.Released);
          SurplusLogged(s, e);
          CompletionSurplus(s.(log := s.log + [e]), escrow, a);
      }
    }
  }

  // ---- Custodies -----------------------------------------------------------------------------

  lemma HeldNext(custodies: map<Id, Custody>, escrows: map<Id, Escrow>, nextId: Id)
    ensures HeldTotal(custodies, escrows, nextId + 1)
         == HeldTotal(custodies, escrows, nextId) + HeldFor(custodies, escrows, nextId)
  {
  }

  lemma OpeningPaysNothing(s: State, row: Custody, e: Event, t: EventType)
    requires s.nextId !in s.custodies && e.eventType.CustodyStarted?
    requires row.escrowId.Some? ==> Trail(s.log, row.escrowId.value) == []
    requires t.EscrowReleased? || t.EscrowRefunded?
    ensures PaidOut(s.log + [e], CustodyEscrows(s.custodies[s.nextId := row]), t)
         == PaidOut(s.log, CustodyEscrows(s.custodies), t)
  {
    var own, own' := CustodyEscrows(s.custodies), CustodyEscrows(s.custodies[s.nextId := row]);
    EscrowsOfCustodiesGrow(s.custodies, s.nextId, row);
    PaidOutSnoc(s.log, e, own', t);
    if row.escrowId.Some? {
      PaidOutNew(s.log, own, row.escrowId.value, t);
    } else {
      assert own' == own;
    }
  }

  /** The deposit enters the books on both sides. */
  lemma OpeningSurplus(s: State, row: Custody, e: Event)
    requires s.nextId !in s.custodies && Opening(s, row, e)
    requires row.escrowId.Some? ==>
               s.escrows[row.escrowId.value].status.Created? && Trail(s.log, row.escrowId.value) == []
    ensures Surplus(s.(custodies := s.custodies[s.nextId := row], nextId := s.nextId + 1, log := s.log + [e]))
         == Surplus(s)
  {
    hide PaidOut, Deposited, HeldTotal, CustodyEscrows;
    var custodies := s.custodies[s.nextId := row];
    OpeningPaysNothing(s, row, e, EscrowReleased);
    OpeningPaysNothing(s, row, e, EscrowRefunded);
    DepositedSnoc(s.log, e);
    HeldSame(s.custodies, s.escrows, custodies, s.escrows, s.nextId);
    HeldNext(custodies, s.escrows, s.nextId);
    assert HeldFor(custodies, s.escrows, s.nextId) == row.depositAmount.GetOr(0);
  }

  lemma NewEscrowSurplus(s: State, amount: int)
    requires Inv(s)
    ensures Surplus(Perform(s, OpenEscrow(amount))) == Surplus(s)
    ensures s.nextId !in CustodyEscrows(s.custodies) && Unused(s, s.nextId) && s.nextId + 1 !in s.custodies
    ensures Unowned(s.adoptions, s.custodies, s.nextId)
  {
    hide Surplus;
    var row := Escrow(amount, EscrowStatus.Created);
    assert Holds(TheIds, s);
    NewEscrow(s, row);
    SurplusOtherEscrow(s, s.nextId, row);
    SurplusNext(s.(escrows := s.escrows[s.nextId := row]), CreateEscrow(s, amount));
  }

  lemma OpenedSurplus(s: State, user: Id, pet: Id, deposit: Option<int>)
    requires Inv(s) && user in s.users && pet in s.pets
    ensures Surplus(Opened(s, user, pet, deposit)) == Surplus(s)
  {
    hide Surplus;
    var e := OpenedEvent(s, user, pet, deposit);
    match deposit {
      case None =>
        assert Holds(TheIds, s);
        OpeningSurplus(s, Custody(CustodyStatus.Pending, pet, user, None, None), e);
      case Some(amount) =>
        NewEscrowSurplus(s, amount);
        OpeningSurplus(CreateEscrow(s, amount), Custody(CustodyStatus.Pending, pet, user, deposit, Some(s.nextId)), e);
    }
  }

  lemma EndedSurplus(s: State, custody: Id, how: Closing)
    requires custody in s.custodies
    ensures var announced := Announced(Ended(s, custody, how), s.custodies[custody], how);
            Surplus(announced) == Surplus(s)
  {
    var row, moved := s.custodies[custody], SetCustody(s, custody, ClosedStatus(how));
    SurplusCustodyMoves(s, custody, ClosedStatus(how));
    SurplusLogged(moved, ClosedEvent(custody, row, how));
    SurplusLogged(Ended(s, custody, how), PetEvent(row, how));
  }

  lemma ClosedSurplus(s: State, custody: Id, how: Closing)
    requires Inv(s) && CanClose(s, custody, how)
    ensures Surplus(Closed(s, custody, how)) == Surplus(s) + Repaid(s, CloseCustodyAs(custody, how))
  {
    hide Surplus;
    var row := s.custodies[custody];
    var ended := Ended(s, custody, how);
    var announced := Announced(ended, row, how);
    var settled := DepositSettled(announced, row, how);
    DepositIsFree(s, custody);
    EndedSurplus(s, custody, how);
    if row.escrowId.Some? {
      CustodyEnds(s, custody, how);
      PetIsTold(ended, row, how);
      SurplusSettles(announced, custody, SettledStatus(how));
    }
    if !how.Cancel? {
      SurplusRescored(settled, row.holderId, ScoreDelta(how));
    }
  }

  // ---- Whole runs -----------------------------------------------------------------------------

  lemma RequestSurplus(s: State, adopter: Id, pet: Id)
    requires Inv(s)
    ensures Surplus(Perform(s, RequestAdoptionFor(adopter, pet))) == Surplus(s)
  {
    hide Surplus;
    var e := RequestedEvent(s, adopter, pet);
    RequestDoes(s, adopter, pet);
    assert Holds(TheIds, s);
    SurplusLogged(s, e);
    if RequestAdoption(s, adopter, pet).outcome.Ok? {
      SurplusNext(s.(log := s.log + [e]), RequestAdoption(s, adopter, pet).state);
    }
  }

  /** A call that only moves an adoption along, with or without an event. */
  lemma MoveSurplus(s: State, s': State, e: Event)
    requires s'.custodies == s.custodies && s'.escrows == s.escrows && s'.nextId == s.nextId
    requires s'.log == s.log || s'.log == s.log + [e]
    requires e.eventType.AdoptionApproved? || e.eventType.AdoptionCompleted?
    ensures Surplus(s') == Surplus(s)
  {
    hide Surplus;
    SurplusLogged(s, e);
    if s'.log == s.log {
      SurplusDepends(s, s');
    } else {
      SurplusDepends(s.(log := s.log + [e]), s');
    }
  }

  lemma UpdateSurplus(s: State, adoption: Id, actor: Option<Id>, status: AdoptionStatus)
    ensures Surplus(Perform(s, UpdateAdoption(adoption, actor, status))) == Surplus(s)
    ensures status.Approved? ==> Surplus(Perform(s, ApproveAdoptionBy(adoption, actor))) == Surplus(s)
  {
    hide Surplus;
    UpdateDoes(s, adoption, actor, status);
    ApproveDoes(s, adoption, actor);
    if Accepted(s, adoption, status) {
      var e := AdoptionEvent(s, adoption, actor, StatusEvent(status).GetOr(AdoptionApproved));
      MoveSurplus(s, UpdateAdoptionStatus(s, adoption, actor, status).state, e);
      if status.Approved? {
        MoveSurplus(s, ApproveAdoption(s, adoption, actor).state, e);
      }
    }
  }

  lemma RejectSurplus(s: State, adoption: Id)
    ensures Surplus(Perform(s, RejectAdoptionOf(adoption))) == Surplus(s)
  {
    hide Surplus;
    SurplusDepends(s, Perform(s, RejectAdoptionOf(adoption)));
  }

  lemma CreateSurplus(s: State, user: Id, pet: Id, past: bool, days: int, deposit: Option<int>)
    requires Inv(s)
    ensures Surplus(Perform(s, CreateCustodyFor(user, pet, past, days, deposit))) == Surplus(s)
  {
    hide Surplus;
    CreateDoes(s, user, pet, past, days, deposit);
    if CreateCustody(s, user, pet, past, days, deposit).outcome.Ok? {
      OpenedSurplus(s, user, pet, deposit);
    }
  }

  lemma CloseSurplus(s: State, custody: Id, how: Closing)
    requires Inv(s)
    ensures Surplus(Perform(s, CloseCustodyAs(custody, how))) == Surplus(s) + Repaid(s, CloseCustodyAs(custody, how))
  {
    hide Surplus, Closed;
    CloseDoes(s, custody, how);
    if CanClose(s, custody, how) {
      ClosedSurplus(s, custody, how);
    }
  }

  lemma AdjustSurplus(s: State, user: Id, delta: real)
    ensures Surplus(Perform(s, AdjustScore(user, delta))) == Surplus(s)
  {
    hide Surplus;
    if user in s.users {
      SurplusRescored(s, user, delta);
    }
  }

  lemma ElsewhereSurplus(s: State, step: Step)
    requires Inv(s) && ByOthers(step)
    ensures Surplus(Perform(s, step)) == Surplus(s)
  {
    hide Surplus;
    var s' := Perform(s, step);
    assert Holds(TheIds, s);
    if s' != s {
      match step {
        case RegisterUser => SurplusNext(s, s');
        case AddPet(_) => SurplusNext(s, s');
        case ActivateCustody(c) => SurplusCustodyMoves(s, c, CustodyStatus.Active);
        case AttachEscrow(_, _) => SurplusDepends(s, s');
        case FundEscrow(x) => SurplusFunded(s, x);
      }
    }
  }

  /** No step creates or loses custody money, other than by paying out of a settled escrow. */
  lemma SurplusStep(s: State, step: Step)
    requires Inv(s)
    ensures Surplus(Perform(s, step)) == Surplus(s) + Repaid(s, step)
  {
    hide Surplus, Perform, Inv;
    match step {
      case RequestAdoptionFor(adopter, pet) => RequestSurplus(s, adopter, pet);
      case UpdateAdoption(a, actor, status) => UpdateSurplus(s, a, actor, status);
      case ApproveAdoptionBy(a, admin) => UpdateSurplus(s, a, admin, AdoptionStatus.Approved);
      case RejectAdoptionOf(a) => RejectSurplus(s, a);
      case ReleaseOf(x) => ReleaseSurplus(s, x);
      case RefundOf(x) => RefundSurplus(s, x);
      case CreateCustodyFor(user, pet, past, days, deposit) =>
        CreateSurplus(s, user, pet, past, days, deposit);
      case CloseCustodyAs(c, how) => CloseSurplus(s, c, how);
      case OpenEscrow(amount) => NewEscrowSurplus(s, amount);
      case AdjustScore(u, delta) => AdjustSurplus(s, u, delta);
      case _ => ElsewhereSurplus(s, step);
    }
  }

  lemma {:induction false} SurplusRun(s: State, run: seq<Step>)
    requires Inv(s)
    ensures Surplus(After(s, run)) == Surplus(s) + RepaidIn(s, run)
    decreases |run|
  {
    if run != [] {
      StepKeepsInv(s, run[0]);
      SurplusStep(s, run[0]);
      SurplusRun(Perform(s, run[0]), run[1..]);
    }
  }

  /** Conservation, over every run: the deposits of all CUSTODY_STARTED events ever logged,
      which are the deposits on the custody rows, together with what was paid out of escrows
      that had been settled before, are the money now held in unsettled custody escrows plus
      what the log says was released from custody escrows plus what it says was refunded. */
  lemma DepositsAreConserved(run: seq<Step>)
    ensures var s := After(EMPTY_STATE, run);
            var own := CustodyEscrows(s.custodies);
            && Deposited(s.log) == DepositTotal(s.custodies, s.nextId)
            && Deposited(s.log) + RepaidIn(EMPTY_STATE, run)
            == HeldTotal(s.custodies, s.escrows, s.nextId)
             + PaidOut(s.log, own, EscrowReleased) + PaidOut(s.log, own, EscrowRefunded)
  {
    EmptyIsFine();
    SurplusRun(EMPTY_STATE, run);
    Reachable(run);
    assert Holds(TheBooks, After(EMPTY_STATE, run));
  }

  /** No caller but the custody service settles an escrow of a custody. */
  predicate LeavesCustodyEscrows(s: State, step: Step) {
    step.ReleaseOf? || step.RefundOf? ==> step.escrow !in CustodyEscrows(s.custodies)
  }

  predicate LeavesCustodyEscrowsIn(s: State, run: seq<Step>)
    decreases |run|
  {
    run == [] || (LeavesCustodyEscrows(s, run[0]) && LeavesCustodyEscrowsIn(Perform(s, run[0]), run[1..]))
  }

  ghost predicate AllSettlementsFit(s: State) {
    forall c: Id :: Kept(SettlementOf(c), s)
  }

  lemma QuietStepRepaysNothing(s: State, step: Step)
    requires Inv(s) && AllSettlementsFit(s) && LeavesCustodyEscrows(s, step)
    ensures Repaid(s, step) == 0 && AllSettlementsFit(Perform(s, step))
  {
    if step.CloseCustodyAs? && CanClose(s, step.custody, step.how) {
      assert Kept(SettlementOf(step.custody), s);
    }
    forall c: Id ensures Kept(SettlementOf(c), Perform(s, step)) {
      assert Kept(SettlementOf(c), s);
      SettlementStep(s, step, c);
    }
  }

  lemma {:induction false} QuietRunRepaysNothing(s: State, run: seq<Step>)
    requires Inv(s) && AllSettlementsFit(s) && LeavesCustodyEscrowsIn(s, run)
    ensures RepaidIn(s, run) == 0
    decreases |run|
  {
    if run != [] {
      StepKeepsInv(s, run[0]);
      QuietStepRepaysNothing(s, run[0]);
      QuietRunRepaysNothing(Perform(s, run[0]), run[1..]);
    }
  }

  /** Left to the custody service, custody money is neither lost nor paid twice. */
  lemma CustodyServiceConserves(run: seq<Step>)
    requires LeavesCustodyEscrowsIn(EMPTY_STATE, run)
    ensures RepaidIn(EMPTY_STATE, run) == 0
    ensures var s := After(EMPTY_STATE, run);
            var own := CustodyEscrows(s.custodies);
            DepositTotal(s.custodies, s.nextId)
            == HeldTotal(s.custodies, s.escrows, s.nextId)
             + PaidOut(s.log, own, EscrowReleased) + PaidOut(s.log, own, EscrowRefunded)
  {
    EmptyIsFine();
    QuietRunRepaysNothing(EMPTY_STATE, run);
    DepositsAreConserved(run);
  }
}
