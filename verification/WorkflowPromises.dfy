/** What the services promise about single rows, and exactly what a step of a run must not
    do for a promise to stay kept. */
module WorkflowPromises {
  import opened Wrappers
  import opened Schema
  import opened Workflow
  import opened WorkflowInvariant
  import opened WorkflowClosing
  import opened WorkflowRuns
  import opened WorkflowEffects
  import AdoptionStateMachine
  import Reducers

  /** A call from outside the custody service that settles a custody's escrow. */
  predicate SettlesFor(s: State, step: Step, custody: Id) {
    && (step.ReleaseOf? || step.RefundOf?)
    && custody in s.custodies && s.custodies[custody].escrowId == Some(step.escrow)
  }

  /** A release of the escrow that is logged and not done, with the escrow not yet released. */
  predicate Overstates(s: State, step: Step, escrow: Id) {
    TornRelease(s, step) && step.escrow == escrow && !s.escrows[escrow].status.Released?
  }

  /** A call from outside the custody service that changes a score. */
  predicate ShiftsScore(s: State, step: Step, user: Id) {
    && step.AdjustScore? && step.user == user && user in s.users
    && Clamp(s.users[user].trustScore + step.delta) != s.users[user].trustScore
  }

  predicate Heeds(p: Promise, s: State, step: Step) {
    match p
    case HistoryOf(a) => !(TornUpdate(s, step) && step.adoption == a)
    case SettlementOf(c) => !SettlesFor(s, step, c)
    case RecordOf(x) => !Overstates(s, step, x)
    case EarningsOf(u) => !ShiftsScore(s, step, u)
  }

  // ---- Adoption histories -----------------------------------------------------------

  /** Where a transition logs an event, that event is what its history grows by; where it
      logs none, the history stays. */
  lemma TrailsFollowTransitions(from: AdoptionStatus, to: AdoptionStatus)
    requires AdoptionStateMachine.CanTransition(from, to)
    ensures AdoptionTrail(to)
         == match StatusEvent(to)
            case None => AdoptionTrail(from)
            case Some(eventType) => AdoptionTrail(from) + [eventType]
  {
  }

  /** An adoption whose events fit its status keeps fitting it through a step, unless that
      step is an update of its status that cannot log its event; then it never does. */
  lemma HistoryStep(s: State, step: Step, a: Id)
    requires Inv(s) && Kept(HistoryOf(a), s)
    ensures Kept(HistoryOf(a), Perform(s, step)) <==> Heeds(HistoryOf(a), s, step)
  {
    hide Perform, Inv, Trail;
    StepOnAdoption(s, step, a);
    var s' := Perform(s, step);
    if a in s.adoptions && s'.adoptions[a].status != s.adoptions[a].status {
      TrailsFollowTransitions(s.adoptions[a].status, s'.adoptions[a].status);
    }
  }

  // ---- Custody settlements --------------------------------------------------------------

  lemma CustodyEscrowsNeverTear(s: State, step: Step, c: Id)
    requires Inv(s) && c in s.custodies && s.custodies[c].escrowId.Some?
    ensures TornRelease(s, step) ==> step.escrow != s.custodies[c].escrowId.value
    ensures SettlesFor(s, step, c) ==> Settles(s, step, s.custodies[c].escrowId.value)
  {
    DepositIsFree(s, c);
  }

  lemma OneClosingPerEscrow(s: State, step: Step, c: Id)
    requires Inv(s) && c in s.custodies && s.custodies[c].escrowId.Some?
    ensures Settles(s, step, s.custodies[c].escrowId.value) ==>
              SettlesFor(s, step, c) || (step.CloseCustodyAs? && step.custody == c && CanClose(s, c, step.how))
  {
    assert Holds(TheOwnership, s);
    if step.CloseCustodyAs? {
      CloseDoes(s, step.custody, step.how);
    }
  }

  lemma OldSettlementStep(s: State, step: Step, c: Id)
    requires Inv(s) && Kept(SettlementOf(c), s) && c in s.custodies && s.custodies[c].escrowId.Some?
    ensures Kept(SettlementOf(c), Perform(s, step)) <==> Heeds(SettlementOf(c), s, step)
  {
    hide Perform, Inv, Trail, Call, Settles;
    var x := s.custodies[c].escrowId.value;
    StepOnCustody(s, step, c);
    StepOnEscrow(s, step, x);
    CustodyEscrowsNeverTear(s, step, c);
    OneClosingPerEscrow(s, step, c);
    if step.CloseCustodyAs? && step.custody == c && CanClose(s, c, step.how) {
      CloseSettlesExactlyWhen(s, c, step.how, x);
    }
  }

  lemma NewSettlement(s: State, step: Step, c: Id)
    requires Inv(s) && c !in s.custodies
    ensures Kept(SettlementOf(c), Perform(s, step))
  {
    hide Perform, Inv, Trail, Settles;
    StepOnCustody(s, step, c);
    var s' := Perform(s, step);
    if c in s'.custodies && s'.custodies[c].escrowId.Some? {
      StepOnEscrow(s, step, s'.custodies[c].escrowId.value);
    }
  }

  lemma NoSettlement(s: State, step: Step, c: Id)
    requires Inv(s) && c in s.custodies && s.custodies[c].escrowId.None?
    ensures Kept(SettlementOf(c), Perform(s, step))
  {
    hide Perform, Inv, Trail;
    StepOnCustody(s, step, c);
  }

  /** A custody's escrow goes with its status through every step, unless that step settles
      the escrow behind the custody service's back; then it never does. */
  lemma SettlementStep(s: State, step: Step, c: Id)
    requires Inv(s) && Kept(SettlementOf(c), s)
    ensures Kept(SettlementOf(c), Perform(s, step)) <==> Heeds(SettlementOf(c), s, step)
  {
    hide Perform, Inv, Kept;
    if c !in s.custodies {
      NewSettlement(s, step, c);
    } else if s.custodies[c].escrowId.None? {
      NoSettlement(s, step, c);
    } else {
      OldSettlementStep(s, step, c);
    }
  }

  // ---- Escrow records ----------------------------------------------------------------------

  lemma SettledRecord(trail: seq<EventType>, status: EscrowStatus)
    requires status.Released? || status.Refunded?
    ensures Reducers.ReplayTypes(EscrowEntity, trail + [SettledType(status)]) == EscrowRecord(status)
  {
    hide Reducers.ReplayTypes;
    Reducers.TypesSnoc(EscrowEntity, trail, SettledType(status));
    StatusOnly(EscrowEntity, trail);
  }

  lemma {:induction false} StatusOnly(kind: EntityType, trail: seq<EventType>)
    requires kind.AdoptionEntity? || kind.EscrowEntity?
    ensures Reducers.ReplayTypes(kind, trail).Keys <= {Reducers.StatusField}
    decreases |trail|
  {
    if trail != [] {
      StatusOnly(kind, trail[..|trail| - 1]);
    }
  }

  /** The events of an escrow keep replaying to its status through a step, unless that step
      logs a release of it that is not done; then they never do. */
  lemma RecordStep(s: State, step: Step, x: Id)
    requires Inv(s) && Kept(RecordOf(x), s)
    ensures Kept(RecordOf(x), Perform(s, step)) <==> Heeds(RecordOf(x), s, step)
  {
    hide Perform, Inv, Trail, Settles, Reducers.ReplayTypes;
    StepOnEscrow(s, step, x);
    EmptyRecord();
    assert Reducers.StatusField in EscrowRecord(EscrowStatus.Released);
    if x in s.escrows {
      TornNeverSettles(s, step, x);
      SettledRecord(Trail(s.log, x), SettlesAs(step));
      SettledRecord(Trail(s.log, x), EscrowStatus.Released);
    }
  }

  lemma EmptyRecord()
    ensures Reducers.ReplayTypes(EscrowEntity, []) == map[]
  {
  }

  // ---- Earned scores ----------------------------------------------------------------------

  /** An event that neither reports a score nor earns one. */
  predicate Unscored(e: Event) {
    !e.eventType.CustodyReturned? && !e.eventType.CustodyViolation? && !e.eventType.TrustScoreUpdated?
  }

  lemma UnscoredEarnings(s: State, e: Event, u: Id)
    requires Unscored(e)
    ensures ScoreFold(s.log + [e], u) == ScoreFold(s.log, u) && LastScore(s.log + [e], u) == LastScore(s.log, u)
  {
    HistorySnoc(s.log, e);
  }

  lemma AdoptionCallEarnings(s: State, step: Step, u: Id)
    requires Kept(EarningsOf(u), s)
    requires step.RequestAdoptionFor? || step.UpdateAdoption? || step.ApproveAdoptionBy? || step.RejectAdoptionOf?
    ensures Kept(EarningsOf(u), Perform(s, step))
  {
    hide ScoreFold, LastScore;
    match step {
      case RequestAdoptionFor(adopter, pet) =>
        RequestDoes(s, adopter, pet);
        UnscoredEarnings(s, RequestedEvent(s, adopter, pet), u);
      case UpdateAdoption(a, actor, status) =>
        UpdateDoes(s, a, actor, status);
        if Accepted(s, a, status) {
          UnscoredEarnings(s, AdoptionEvent(s, a, actor, StatusEvent(status).GetOr(AdoptionApproved)), u);
        }
      case ApproveAdoptionBy(a, admin) =>
        ApproveDoes(s, a, admin);
        if Accepted(s, a, AdoptionStatus.Approved) {
          UnscoredEarnings(s, AdoptionEvent(s, a, admin, AdoptionApproved), u);
        }
      case RejectAdoptionOf(_) =>
    }
  }

  lemma CompletionEarnings(s: State, escrow: Id, adoption: Id, u: Id)
    requires escrow in s.escrows && adoption in s.adoptions && Kept(EarningsOf(u), s)
    ensures Kept(EarningsOf(u), CompleteByRelease(s, escrow, adoption).state)
  {
    hide ScoreFold, LastScore;
    CompletionDoes(s, escrow, adoption);
    UnscoredEarnings(s, CompletedEvent(s, escrow, adoption), u);
  }

  lemma ReleaseEarnings(s: State, escrow: Id, u: Id)
    requires Kept(EarningsOf(u), s)
    ensures Kept(EarningsOf(u), Perform(s, ReleaseOf(escrow)))
  {
    hide ScoreFold, LastScore, Perform, CompleteByRelease;
    ReleaseDoes(s, escrow);
    if escrow in s.escrows {
      var e := SettledEvent(s, escrow, EscrowStatus.Released);
      UnscoredEarnings(s, e, u);
      var found := AdoptionOf(s.adoptions, escrow, s.nextId);
      if found.Some? {
        CompletionEarnings(s.(log := s.log + [e]), escrow, found.value, u);
      }
    }
  }

  lemma RefundEarnings(s: State, escrow: Id, u: Id)
    requires Kept(EarningsOf(u), s)
    ensures Kept(EarningsOf(u), Perform(s, RefundOf(escrow)))
  {
    hide ScoreFold, LastScore;
    if escrow in s.escrows {
      UnscoredEarnings(s, SettledEvent(s, escrow, EscrowStatus.Refunded), u);
    }
  }

  lemma CreateEarnings(s: State, user: Id, pet: Id, past: bool, days: int, deposit: Option<int>, u: Id)
    requires Kept(EarningsOf(u), s)
    ensures Kept(EarningsOf(u), Perform(s, CreateCustodyFor(user, pet, past, days, deposit)))
  {
    CreateDoes(s, user, pet, past, days, deposit);
    hide ScoreFold, LastScore, CreateCustody;
    UnscoredEarnings(s, OpenedEvent(s, user, pet, deposit), u);
  }

  lemma ElsewhereEarnings(s: State, step: Step, u: Id)
    requires Kept(EarningsOf(u), s) && (ByOthers(step) || step.OpenEscrow?)
    ensures Kept(EarningsOf(u), Perform(s, step))
  {
  }

  /** The end of a custody earns what the score event after it reports. */
  lemma CloseEarnings(s: State, custody: Id, how: Closing, u: Id)
    requires Inv(s) && Kept(EarningsOf(u), s)
    ensures Kept(EarningsOf(u), Perform(s, CloseCustodyAs(custody, how)))
  {
    CloseDoes(s, custody, how);
    if CanClose(s, custody, how) {
      assert Holds(TheScores, s);
      DepositIsFree(s, custody);
      ClosedEarnings(s, custody, how, u);
    }
  }

  lemma SettlingEarnings(s: State, row: Custody, how: Closing, u: Id)
    requires row.escrowId.Some? ==> row.escrowId.value in s.escrows
    ensures ScoreFold(DepositSettled(s, row, how).log, u) == ScoreFold(s.log, u)
    ensures LastScore(DepositSettled(s, row, how).log, u) == LastScore(s.log, u)
    ensures DepositSettled(s, row, how).users == s.users
  {
    if row.escrowId.Some? {
      UnscoredEarnings(s, SettledEvent(s, row.escrowId.value, SettledStatus(how)), u);
    }
  }

  lemma EndingEarnings(s: State, custody: Id, how: Closing, u: Id)
    requires custody in s.custodies && Kept(EarningsOf(u), s)
    ensures var row := s.custodies[custody];
            var announced := Announced(Ended(s, custody, how), row, how);
            && announced.users == s.users && LastScore(announced.log, u) == LastScore(s.log, u)
            && ScoreFold(announced.log, u)
            == (if u == row.holderId && !how.Cancel? then Clamp(LastScore(s.log, u) + ScoreDelta(how))
                else LastScore(s.log, u))
  {
    var row := s.custodies[custody];
    HistorySnoc(s.log, ClosedEvent(custody, row, how));
    UnscoredEarnings(Ended(s, custody, how), PetEvent(row, how), u);
  }

  lemma ClosedEarnings(s: State, custody: Id, how: Closing, u: Id)
    requires custody in s.custodies && s.custodies[custody].holderId in s.users
    requires var x := s.custodies[custody].escrowId; x.Some? ==> x.value in s.escrows
    requires Scores(s.users, s.log) && Kept(EarningsOf(u), s)
    ensures Kept(EarningsOf(u), Closed(s, custody, how))
  {
    var row := s.custodies[custody];
    var announced := Announced(Ended(s, custody, how), row, how);
    EndingEarnings(s, custody, how, u);
    SettlingEarnings(announced, row, how, u);
    assert LastScore(s.log, u) == ScoreOf(s.users, u);
    HistorySnoc(DepositSettled(announced, row, how).log,
                ScoreEvent(row.holderId, s.users[row.holderId].trustScore, ScoreDelta(how)));
  }

  lemma AdjustEarnings(s: State, user: Id, delta: real, u: Id)
    requires Inv(s) && Kept(EarningsOf(u), s)
    ensures var step := AdjustScore(user, delta);
            Kept(EarningsOf(u), Perform(s, step)) <==> Heeds(EarningsOf(u), s, step)
  {
    if user in s.users {
      assert Holds(TheScores, s);
      assert LastScore(s.log, u) == ScoreOf(s.users, u);
      HistorySnoc(s.log, ScoreEvent(user, s.users[user].trustScore, delta));
    }
  }

  /** A score stays what its custodies earned through every step, unless that step changes
      it from outside the custody service; then it never does. */
  lemma EarningsStep(s: State, step: Step, u: Id)
    requires Inv(s) && Kept(EarningsOf(u), s)
    ensures Kept(EarningsOf(u), Perform(s, step)) <==> Heeds(EarningsOf(u), s, step)
  {
    hide Perform, Kept, Inv;
    match step {
      case RequestAdoptionFor(_, _) => AdoptionCallEarnings(s, step, u);
      case UpdateAdoption(_, _, _) => AdoptionCallEarnings(s, step, u);
      case ApproveAdoptionBy(_, _) => AdoptionCallEarnings(s, step, u);
      case RejectAdoptionOf(_) => AdoptionCallEarnings(s, step, u);
      case ReleaseOf(x) => ReleaseEarnings(s, x, u);
      case RefundOf(x) => RefundEarnings(s, x, u);
      case CreateCustodyFor(user, pet, past, days, deposit) => CreateEarnings(s, user, pet, past, days, deposit, u);
      case CloseCustodyAs(c, how) => CloseEarnings(s, c, how, u);
      case AdjustScore(user, delta) => AdjustEarnings(s, user, delta, u);
      case _ => ElsewhereEarnings(s, step, u);
    }
  }

  // ---- Whole runs ---------------------------------------------------------------------------

  /** A run whose every step heeds a promise when its turn comes. */
  predicate Careful(p: Promise, s: State, run: seq<Step>)
    decreases |run|
  {
    run == [] || (Heeds(p, s, run[0]) && Careful(p, Perform(s, run[0]), run[1..]))
  }

  /** A promise kept in every state of a run. */
  predicate KeptThroughout(p: Promise, s: State, run: seq<Step>)
    decreases |run|
  {
    Kept(p, s) && (run != [] ==> KeptThroughout(p, Perform(s, run[0]), run[1..]))
  }

  lemma PromiseStep(p: Promise, s: State, step: Step)
    requires Inv(s) && Kept(p, s)
    ensures Kept(p, Perform(s, step)) <==> Heeds(p, s, step)
  {
    match p {
      case HistoryOf(a) => HistoryStep(s, step, a);
      case SettlementOf(c) => SettlementStep(s, step, c);
      case RecordOf(x) => RecordStep(s, step, x);
      case EarningsOf(u) => EarningsStep(s, step, u);
    }
  }

  lemma {:induction false} PromiseRun(p: Promise, s: State, run: seq<Step>)
    requires Inv(s) && Kept(p, s)
    ensures KeptThroughout(p, s, run) <==> Careful(p, s, run)
    ensures Careful(p, s, run) ==> Kept(p, After(s, run))
    decreases |run|
  {
    if run != [] {
      StepKeepsInv(s, run[0]);
      PromiseStep(p, s, run[0]);
      if Heeds(p, s, run[0]) {
        PromiseRun(p, Perform(s, run[0]), run[1..]);
      } else {
        assert !KeptThroughout(p, Perform(s, run[0]), run[1..]);
      }
    }
  }

  /** A promise is kept in every state of a run from the empty database exactly when every
      step of the run heeds it. */
  lemma PromiseKeptExactlyWhen(p: Promise, run: seq<Step>)
    ensures KeptThroughout(p, EMPTY_STATE, run) <==> Careful(p, EMPTY_STATE, run)
    ensures Careful(p, EMPTY_STATE, run) ==> Kept(p, After(EMPTY_STATE, run))
  {
    EmptyIsFine();
    PromiseRun(p, EMPTY_STATE, run);
  }
}
