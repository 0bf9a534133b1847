/** How custodies and adoptions and their escrows go together, and how often an escrow is
    settled. */
module WorkflowSettlements {
  import opened Wrappers
  import opened Schema
  import opened Workflow
  import opened WorkflowInvariant
  import opened WorkflowClosing
  import opened WorkflowRuns
  import opened WorkflowEffects
  import opened WorkflowPromises
  import opened WorkflowLifecycles
  import AdoptionStateMachine
  import CustodyStateMachine

  // ---- Custody escrows ----------------------------------------------------------------

  /** A custody has an escrow exactly when it has a deposit, of the same amount, and is
      never completed. */
  lemma DepositsHaveEscrows(run: seq<Step>, custody: Id)
    requires custody in After(EMPTY_STATE, run).custodies
    ensures var s := After(EMPTY_STATE, run);
            var row := s.custodies[custody];
            && !row.status.Completed?
            && (row.escrowId.Some? <==> row.depositAmount.Some?)
            && (row.escrowId.Some? ==>
                  row.escrowId.value in s.escrows && s.escrows[row.escrowId.value].amount == row.depositAmount.value)
  {
    Reachable(run);
    var s := After(EMPTY_STATE, run);
    assert Holds(TheDeposits, s);
    assert Holds(TheCustodies, s);
    assert Backed(s.custodies[custody], s.escrows);
  }

  /** A custody's escrow is unsettled while the custody is pending or active, released
      exactly when it was returned, and refunded exactly when it was violated or cancelled, in
      every run in which nobody but the custody service settles it; and it goes with the
      custody in all states of a run only then. */
  lemma EscrowFollowsCustody(run: seq<Step>, custody: Id)
    ensures KeptThroughout(SettlementOf(custody), EMPTY_STATE, run)
       <==> Careful(SettlementOf(custody), EMPTY_STATE, run)
    ensures var s := After(EMPTY_STATE, run);
            Careful(SettlementOf(custody), EMPTY_STATE, run)
            && custody in s.custodies && s.custodies[custody].escrowId.Some? ==>
              var row := s.custodies[custody];
              && row.escrowId.value in s.escrows
              && var escrow := s.escrows[row.escrowId.value];
                 && (Held(escrow.status) <==> CustodyStateMachine.Unsettled(row.status))
                 && (escrow.status.Released? <==> row.status.Returned?)
                 && (escrow.status.Refunded? <==> row.status.Violation? || row.status.Cancelled?)
                 && Trail(s.log, row.escrowId.value) == EscrowTrail(escrow.status)
  {
    PromiseKeptExactlyWhen(SettlementOf(custody), run);
    var s := After(EMPTY_STATE, run);
    if Careful(SettlementOf(custody), EMPTY_STATE, run) && custody in s.custodies {
      DepositsHaveEscrows(run, custody);
      assert Kept(SettlementOf(custody), s);
      assert SettlementFits(s.custodies[custody], s.escrows, s.log);
    }
  }

  /** The log records the outcome of a custody once it has one, and never twice. */
  lemma OutcomeRecordedOnce(run: seq<Step>, custody: Id)
    requires custody in After(EMPTY_STATE, run).custodies
    ensures var s := After(EMPTY_STATE, run);
            var status := s.custodies[custody].status;
            var own := multiset(Trail(s.log, custody));
            && own[CustodyReturned] == (if status.Returned? then 1 else 0)
            && own[CustodyViolation] == (if status.Violation? then 1 else 0)
            && own[EventType.CustodyCancelled] == (if status.Cancelled? then 1 else 0)
  {
    Reachable(run);
    assert Holds(TheCustodies, After(EMPTY_STATE, run));
    CustodyTrailCounts(After(EMPTY_STATE, run).custodies[custody].status);
  }

  lemma CustodyTrailCounts(status: CustodyStatus)
    requires !status.Completed?
    ensures var own := multiset(CustodyTrail(status));
            && own[CustodyReturned] == (if status.Returned? then 1 else 0)
            && own[CustodyViolation] == (if status.Violation? then 1 else 0)
            && own[EventType.CustodyCancelled] == (if status.Cancelled? then 1 else 0)
  {
  }

  /** Why care is needed. In every state a run reaches, the escrow service refuses neither a
      release nor a refund of a custody's escrow, settled or not, and logs either. A release
      from outside leaves the two statuses matched only for a returned custody, a refund only
      for a violated or cancelled one. */
  lemma EscrowServiceNeverRefuses(run: seq<Step>, custody: Id)
    requires var custodies := After(EMPTY_STATE, run).custodies;
             custody in custodies && custodies[custody].escrowId.Some?
    ensures var s := After(EMPTY_STATE, run);
            var row := s.custodies[custody];
            var x := row.escrowId.value;
            var released, refunded := ReleaseEscrow(s, x), RefundEscrow(s, x);
            && released.outcome.Ok? && refunded.outcome.Ok?
            && x in released.state.escrows && x in refunded.state.escrows
            && (SettlementMatches(row.status, released.state.escrows[x].status) <==> row.status.Returned?)
            && (SettlementMatches(row.status, refunded.state.escrows[x].status)
                <==> row.status.Violation? || row.status.Cancelled?)
            && Trail(released.state.log, x) == Trail(s.log, x) + [EscrowReleased]
            && Trail(refunded.state.log, x) == Trail(s.log, x) + [EscrowRefunded]
  {
    Reachable(run);
    var s := After(EMPTY_STATE, run);
    var x := s.custodies[custody].escrowId.value;
    DepositIsFree(s, custody);
    TrailSnoc(s.log, SettledEvent(s, x, EscrowStatus.Released));
    TrailSnoc(s.log, SettledEvent(s, x, EscrowStatus.Refunded));
  }

  // ---- How often an escrow is settled ---------------------------------------------------

  function Settlements(s: State, run: seq<Step>, escrow: Id): nat
    decreases |run|
  {
    if run == [] then 0
    else (if Settles(s, run[0], escrow) then 1 else 0) + Settlements(Perform(s, run[0]), run[1..], escrow)
  }

  predicate IsHeld(s: State, escrow: Id) {
    escrow in s.escrows && Held(s.escrows[escrow].status)
  }

  /** A run that settles the escrow only while it is held, as a guard on its status would
      see to. */
  predicate SettlesWhileHeld(s: State, run: seq<Step>, escrow: Id)
    decreases |run|
  {
    run == []
    || ((Settles(s, run[0], escrow) ==> IsHeld(s, escrow)) && SettlesWhileHeld(Perform(s, run[0]), run[1..], escrow))
  }

  predicate IsSettled(s: State, escrow: Id) {
    escrow in s.escrows && !Held(s.escrows[escrow].status)
  }

  /** An escrow is settled after a step if and only if it was, or the step settles it.
      Nothing ever unsettles it. */
  lemma StepTracked(s: State, step: Step, escrow: Id)
    requires Inv(s)
    ensures IsSettled(Perform(s, step), escrow) <==> IsSettled(s, escrow) || Settles(s, step, escrow)
  {
    hide Perform, Inv, Trail, Settles;
    StepOnEscrow(s, step, escrow);
  }

  lemma {:induction false} SettledMeansNoMore(s: State, run: seq<Step>, escrow: Id)
    requires Inv(s) && IsSettled(s, escrow)
    ensures SettlesWhileHeld(s, run, escrow) <==> Settlements(s, run, escrow) == 0
    decreases |run|
  {
    hide Perform, Settles;
    if run != [] {
      StepKeepsInv(s, run[0]);
      StepTracked(s, run[0], escrow);
      SettledMeansNoMore(Perform(s, run[0]), run[1..], escrow);
    }
  }

  lemma {:induction false} SettledOnce(s: State, run: seq<Step>, escrow: Id)
    requires Inv(s) && !IsSettled(s, escrow)
    ensures SettlesWhileHeld(s, run, escrow) <==> Settlements(s, run, escrow) <= 1
    decreases |run|
  {
    hide Perform, Settles;
    if run != [] {
      var s' := Perform(s, run[0]);
      StepKeepsInv(s, run[0]);
      StepTracked(s, run[0], escrow);
      if Settles(s, run[0], escrow) {
        StepOnEscrow(s, run[0], escrow);
        SettledMeansNoMore(s', run[1..], escrow);
      } else {
        SettledOnce(s', run[1..], escrow);
      }
    }
  }

  /** An escrow that is not settled in the end never was. */
  lemma {:induction false} UnsettledMeansNone(s: State, run: seq<Step>, escrow: Id)
    requires Inv(s) && !IsSettled(After(s, run), escrow)
    ensures Settlements(s, run, escrow) == 0 && !IsSettled(s, escrow)
    decreases |run|
  {
    hide Perform, Settles, Inv;
    if run != [] {
      StepKeepsInv(s, run[0]);
      StepTracked(s, run[0], escrow);
      UnsettledMeansNone(Perform(s, run[0]), run[1..], escrow);
    }
  }

  /** Every escrow, of custodies and adoptions alike: a run settles it at most once if and
      only if each call that settles it finds it held. The services do not look. */
  lemma SettledOnceExactlyWhenHeld(run: seq<Step>, escrow: Id)
    ensures Settlements(EMPTY_STATE, run, escrow) <= 1 <==> SettlesWhileHeld(EMPTY_STATE, run, escrow)
  {
    EmptyIsFine();
    SettledOnce(EMPTY_STATE, run, escrow);
  }

  // ---- Adoption escrows -------------------------------------------------------------------

  ghost predicate Tied(s: State, adoption: Id, escrow: Id) {
    adoption in s.adoptions && s.adoptions[adoption].escrowId == Some(escrow)
  }

  lemma TiedIsFound(s: State, adoption: Id, escrow: Id)
    requires Inv(s) && Tied(s, adoption, escrow)
    ensures escrow in s.escrows && AdoptionOf(s.adoptions, escrow, s.nextId) == Some(adoption)
    ensures s.adoptions[adoption].petId in s.pets && s.adoptions[adoption].adopterId in s.users
  {
    assert Holds(TheReferences, s);
    assert Holds(TheOwnership, s);
    assert Holds(TheIds, s);
  }

  /** An adoption's escrow is released exactly while the adoption is funded, and refunded
      any time, whether or not it has been settled before. */
  lemma AdoptionEscrowSettlesExactlyWhen(s: State, adoption: Id, escrow: Id)
    requires Inv(s) && Tied(s, adoption, escrow)
    ensures Settles(s, ReleaseOf(escrow), escrow) <==> s.adoptions[adoption].status.EscrowFunded?
    ensures Settles(s, RefundOf(escrow), escrow)
    ensures Settles(s, ReleaseOf(escrow), escrow) ==>
              var adoptions := Perform(s, ReleaseOf(escrow)).adoptions;
              adoption in adoptions && adoptions[adoption].status.Completed?
  {
    TiedIsFound(s, adoption, escrow);
  }

  predicate InAdoptions(step: Step) {
    step.RequestAdoptionFor? || step.UpdateAdoption? || step.ApproveAdoptionBy? || step.RejectAdoptionOf?
  }

  lemma AdoptionCallTie(s: State, step: Step, adoption: Id, escrow: Id)
    requires Inv(s) && Tied(s, adoption, escrow)
    requires InAdoptions(step)
    ensures Tied(Perform(s, step), adoption, escrow)
  {
    match step {
      case RequestAdoptionFor(adopter, pet) =>
        RequestDoes(s, adopter, pet);
        hide RequestAdoption;
        assert adoption < s.nextId by { assert Holds(TheIds, s); }
      case UpdateAdoption(a, actor, status) =>
        UpdateDoes(s, a, actor, status);
        hide UpdateAdoptionStatus;
      case ApproveAdoptionBy(a, admin) =>
        ApproveDoes(s, a, admin);
        hide ApproveAdoption;
      case RejectAdoptionOf(_) =>
    }
  }

  lemma EscrowCallTie(s: State, step: Step, adoption: Id, escrow: Id)
    requires Tied(s, adoption, escrow) && !InAdoptions(step) && !step.CreateCustodyFor? && !step.CloseCustodyAs?
    ensures Tied(Perform(s, step), adoption, escrow)
  {
  }

  lemma CustodyCallTie(s: State, step: Step, adoption: Id, escrow: Id)
    requires Inv(s) && Tied(s, adoption, escrow) && (step.CreateCustodyFor? || step.CloseCustodyAs?)
    ensures Tied(Perform(s, step), adoption, escrow)
  {
    match step {
      case CreateCustodyFor(user, pet, past, days, deposit) =>
        CreateDoes(s, user, pet, past, days, deposit);
        hide CreateCustody;
      case CloseCustodyAs(c, how) =>
        CloseDoes(s, c, how);
        hide CloseCustody;
        if CanClose(s, c, how) {
          DepositIsFree(s, c);
          ClosedTables(s, c, how);
          hide Closed;
        }
    }
  }

  lemma TieStays(s: State, step: Step, adoption: Id, escrow: Id)
    requires Inv(s) && Tied(s, adoption, escrow)
    ensures Tied(Perform(s, step), adoption, escrow)
  {
    hide Perform, Tied, Inv;
    match step {
      case RequestAdoptionFor(_, _) => AdoptionCallTie(s, step, adoption, escrow);
      case UpdateAdoption(_, _, _) => AdoptionCallTie(s, step, adoption, escrow);
      case ApproveAdoptionBy(_, _) => AdoptionCallTie(s, step, adoption, escrow);
      case RejectAdoptionOf(_) => AdoptionCallTie(s, step, adoption, escrow);
      case CreateCustodyFor(_, _, _, _, _) => CustodyCallTie(s, step, adoption, escrow);
      case CloseCustodyAs(_, _) => CustodyCallTie(s, step, adoption, escrow);
      case _ => EscrowCallTie(s, step, adoption, escrow);
    }
  }

  function Releases(s: State, run: seq<Step>, escrow: Id): nat
    decreases |run|
  {
    if run == [] then 0
    else (if run[0] == ReleaseOf(escrow) && Settles(s, run[0], escrow) then 1 else 0)
         + Releases(Perform(s, run[0]), run[1..], escrow)
  }

  /** Once tied to an adoption, an escrow is released at most once, whatever else happens,
      and never again once the adoption is over: completion is final. */
  lemma {:induction false} AdoptionEscrowReleasedOnce(s: State, run: seq<Step>, adoption: Id, escrow: Id)
    requires Inv(s) && Tied(s, adoption, escrow)
    ensures Releases(s, run, escrow) <= (if AdoptionStateMachine.Open(s.adoptions[adoption].status) then 1 else 0)
    decreases |run|
  {
    if run != [] {
      var s' := Perform(s, run[0]);
      StepKeepsInv(s, run[0]);
      StepAdvances(s, run[0]);
      TieStays(s, run[0], adoption, escrow);
      AdoptionEscrowSettlesExactlyWhen(s, adoption, escrow);
      AdoptionEscrowReleasedOnce(s', run[1..], adoption, escrow);
    }
  }
}
