/** What one step of a run does to a single adoption, escrow or custody: to its row, and to
    the history the log shows of it. */
module WorkflowEffects {
  import opened Wrappers
  import opened Schema
  import opened Workflow
  import opened WorkflowInvariant
  import opened WorkflowFrames
  import opened WorkflowClosing
  import opened WorkflowRuns
  import AdoptionStateMachine

  /** An accepted status update whose event cannot be logged, since its actor is no user. */
  predicate TornUpdate(s: State, step: Step) {
    && step.UpdateAdoption?
    && Accepted(s, step.adoption, step.status) && StatusEvent(step.status).Some? && Unknown(s, step.actor)
  }

  /** A release that finds its escrow tied to an adoption that cannot be completed. */
  predicate TornRelease(s: State, step: Step) {
    && step.ReleaseOf? && step.escrow in s.escrows
    && var a := AdoptionOf(s.adoptions, step.escrow, s.nextId);
       a.Some? && !s.adoptions[a.value].status.EscrowFunded?
  }

  /** A call that goes through and settles the escrow. */
  predicate Settles(s: State, step: Step, escrow: Id) {
    && Call(s, step).outcome.Ok?
    && match step
       case ReleaseOf(x) => x == escrow
       case RefundOf(x) => x == escrow
       case CloseCustodyAs(c, _) => c in s.custodies && s.custodies[c].escrowId == Some(escrow)
       case _ => false
  }

  function SettlesAs(step: Step): EscrowStatus {
    match step
    case RefundOf(_) => EscrowStatus.Refunded
    case CloseCustodyAs(_, how) => SettledStatus(how)
    case _ => EscrowStatus.Released
  }

  lemma RowsApart(s: State)
    requires Inv(s)
    ensures s.adoptions.Keys !! s.custodies.Keys !! s.escrows.Keys !! s.users.Keys !! s.pets.Keys
    ensures Unused(s, s.nextId) && Unused(s, s.nextId + 1)
    ensures forall i :: i in s.adoptions || i in s.escrows || i in s.custodies ==> i < s.nextId
  {
    assert Holds(TheIds, s);
  }

  // ---- Adoptions ---------------------------------------------------------------------

  function EventsFor(status: AdoptionStatus): seq<EventType> {
    match StatusEvent(status)
    case None => []
    case Some(eventType) => [eventType]
  }

  /** The row stays, or takes one transition, whose event the history grows by unless the
      step is torn. A new adoption is requested and has one event. */
  predicate AdoptionEffect(s: State, s': State, a: Id, torn: bool) {
    if a !in s.adoptions then
      a in s'.adoptions ==> s'.adoptions[a].status.Requested? && Trail(s'.log, a) == [AdoptionRequested]
    else
      && a in s'.adoptions
      && var from, to := s.adoptions[a].status, s'.adoptions[a].status;
         if from == to then !torn && Trail(s'.log, a) == Trail(s.log, a)
         else
           && AdoptionStateMachine.CanTransition(from, to)
           && (torn ==> StatusEvent(to).Some?)
           && Trail(s'.log, a) == Trail(s.log, a) + (if torn then [] else EventsFor(to))
  }

  /** Rows and history of the adoption as before. */
  lemma AdoptionUntouched(s: State, s': State, a: Id)
    requires a in s.adoptions ==>
               && a in s'.adoptions && s'.adoptions[a].status == s.adoptions[a].status
               && Trail(s'.log, a) == Trail(s.log, a)
    requires a in s'.adoptions ==> a in s.adoptions
    ensures AdoptionEffect(s, s', a, false)
  {
  }

  /** A status change of one adoption, as seen by any adoption. */
  lemma MoveEffect(s: State, s': State, adoption: Id, status: AdoptionStatus, logged: seq<Event>, a: Id, torn: bool)
    requires Accepted(s, adoption, status) && s'.adoptions == SetAdoption(s, adoption, status).adoptions
    requires s'.log == s.log + logged
    requires if torn then logged == [] && StatusEvent(status).Some?
             else match StatusEvent(status)
                  case None => logged == []
                  case Some(t) => |logged| == 1 && logged[0].entityId == adoption && logged[0].eventType == t
    ensures AdoptionEffect(s, s', a, torn && a == adoption)
  {
    if logged == [] {
      assert s.log + logged == s.log;
    } else {
      assert logged == [logged[0]];
      TrailSnoc(s.log, logged[0]);
    }
    assert forall t: seq<EventType> :: t + [] == t;
    AdoptionStateMachine.TransitionsClimb(s.adoptions[adoption].status);
  }

  lemma RequestEffect(s: State, adopter: Id, pet: Id, a: Id)
    requires Inv(s)
    ensures AdoptionEffect(s, Perform(s, RequestAdoptionFor(adopter, pet)), a, false)
  {
    RequestDoes(s, adopter, pet);
    hide RequestAdoption, Inv;
    RowsApart(s);
    TrailSnoc(s.log, RequestedEvent(s, adopter, pet));
  }

  lemma UpdateEffect(s: State, adoption: Id, actor: Option<Id>, status: AdoptionStatus, a: Id)
    ensures var step := UpdateAdoption(adoption, actor, status);
            AdoptionEffect(s, Perform(s, step), a, TornUpdate(s, step) && adoption == a)
  {
    var s' := Perform(s, UpdateAdoption(adoption, actor, status));
    UpdateDoes(s, adoption, actor, status);
    hide UpdateAdoptionStatus, Trail, AdoptionEffect;
    if !Accepted(s, adoption, status) {
      AdoptionUntouched(s, s', a);
    } else if StatusEvent(status).None? || Unknown(s, actor) {
      assert s.log + [] == s.log;
      MoveEffect(s, s', adoption, status, [], a, StatusEvent(status).Some?);
    } else {
      MoveEffect(s, s', adoption, status, [AdoptionEvent(s, adoption, actor, StatusEvent(status).value)], a, false);
    }
  }

  lemma ApproveEffect(s: State, adoption: Id, admin: Option<Id>, a: Id)
    ensures AdoptionEffect(s, Perform(s, ApproveAdoptionBy(adoption, admin)), a, false)
  {
    var s' := Perform(s, ApproveAdoptionBy(adoption, admin));
    ApproveDoes(s, adoption, admin);
    hide ApproveAdoption, Trail, AdoptionEffect;
    if s' == s {
      AdoptionUntouched(s, s', a);
    } else {
      var e := AdoptionEvent(s, adoption, admin, AdoptionApproved);
      MoveEffect(s, s', adoption, AdoptionStatus.Approved, [e], a, false);
    }
  }

  lemma RejectEffect(s: State, adoption: Id, a: Id)
    ensures AdoptionEffect(s, Perform(s, RejectAdoptionOf(adoption)), a, false)
  {
    hide Trail, AdoptionEffect;
    var s' := Perform(s, RejectAdoptionOf(adoption));
    if Accepted(s, adoption, AdoptionStatus.Rejected) {
      assert s.log + [] == s.log;
      MoveEffect(s, s', adoption, AdoptionStatus.Rejected, [], a, false);
    } else {
      AdoptionUntouched(s, s', a);
    }
  }

  lemma CompletionEffect(s: State, escrow: Id, adoption: Id, a: Id)
    requires escrow in s.escrows && adoption in s.adoptions
    ensures AdoptionEffect(s, CompleteByRelease(s, escrow, adoption).state, a, false)
  {
    var s' := CompleteByRelease(s, escrow, adoption).state;
    CompletionDoes(s, escrow, adoption);
    hide CompleteByRelease, Trail, AdoptionEffect;
    if s' == s {
      AdoptionUntouched(s, s', a);
    } else {
      MoveEffect(s, s', adoption, AdoptionStatus.Completed, [CompletedEvent(s, escrow, adoption)], a, false);
    }
  }

  /** An event on something else changes nothing for an adoption. */
  lemma AfterOtherEvent(s: State, e: Event, s': State, a: Id)
    requires e.entityId !in s.adoptions && AdoptionEffect(s.(log := s.log + [e]), s', a, false)
    ensures AdoptionEffect(s, s', a, false)
  {
    TrailSnoc(s.log, e);
  }

  lemma ReleaseEffect(s: State, escrow: Id, a: Id)
    requires Inv(s)
    ensures AdoptionEffect(s, Perform(s, ReleaseOf(escrow)), a, false)
  {
    hide Perform, CompleteByRelease, Trail, AdoptionEffect, Inv;
    ReleaseDoes(s, escrow);
    RowsApart(s);
    var s' := Perform(s, ReleaseOf(escrow));
    if escrow in s.escrows {
      var e := SettledEvent(s, escrow, EscrowStatus.Released);
      var t := s.(log := s.log + [e]);
      var found := AdoptionOf(s.adoptions, escrow, s.nextId);
      if found.Some? {
        CompletionEffect(t, escrow, found.value, a);
      } else {
        AdoptionUntouched(t, s', a);
      }
      AfterOtherEvent(s, e, s', a);
    } else {
      AdoptionUntouched(s, s', a);
    }
  }

  /** A call that only logs an event on something else. */
  lemma OtherCallEffect(s: State, s': State, e: Event, a: Id)
    requires s'.adoptions == s.adoptions && e.entityId !in s.adoptions
    requires s'.log == s.log || s'.log == s.log + [e]
    ensures AdoptionEffect(s, s', a, false)
  {
    TrailSnoc(s.log, e);
    AdoptionUntouched(s, s', a);
  }

  lemma RefundEffect(s: State, escrow: Id, a: Id)
    requires Inv(s)
    ensures AdoptionEffect(s, Perform(s, RefundOf(escrow)), a, false)
  {
    hide AdoptionEffect, Inv;
    RowsApart(s);
    if escrow in s.escrows {
      OtherCallEffect(s, Perform(s, RefundOf(escrow)), SettledEvent(s, escrow, EscrowStatus.Refunded), a);
    } else {
      AdoptionUntouched(s, s, a);
    }
  }

  lemma CreateEffect(s: State, user: Id, pet: Id, past: bool, days: int, deposit: Option<int>, a: Id)
    requires Inv(s)
    ensures AdoptionEffect(s, Perform(s, CreateCustodyFor(user, pet, past, days, deposit)), a, false)
  {
    CreateDoes(s, user, pet, past, days, deposit);
    hide AdoptionEffect, Inv, CreateCustody;
    RowsApart(s);
    OtherCallEffect(s, Perform(s, CreateCustodyFor(user, pet, past, days, deposit)),
                    OpenedEvent(s, user, pet, deposit), a);
  }

  lemma AdoptionsHaveNoShare(s: State, custody: Id, how: Closing, a: Id)
    requires Inv(s) && custody in s.custodies && a in s.adoptions
    ensures ClosingSuffix(s.custodies[custody], custody, how, a) == []
  {
    hide Inv;
    ClosingRowsApart(s, custody);
  }

  lemma CloseEffect(s: State, custody: Id, how: Closing, a: Id)
    requires Inv(s)
    ensures AdoptionEffect(s, Perform(s, CloseCustodyAs(custody, how)), a, false)
  {
    CloseDoes(s, custody, how);
    hide CloseCustody, Closed, Trail, Inv, AdoptionEffect, ClosingSuffix;
    if CanClose(s, custody, how) {
      DepositIsFree(s, custody);
      ClosedTables(s, custody, how);
      if a in s.adoptions {
        ClosedTrails(s, custody, how, a);
        AdoptionsHaveNoShare(s, custody, how, a);
        assert Trail(s.log, a) + [] == Trail(s.log, a);
      }
    }
    AdoptionUntouched(s, Perform(s, CloseCustodyAs(custody, how)), a);
  }

  lemma AdjustEffect(s: State, user: Id, delta: real, a: Id)
    requires Inv(s)
    ensures AdoptionEffect(s, Perform(s, AdjustScore(user, delta)), a, false)
  {
    hide AdoptionEffect, Inv;
    RowsApart(s);
    if user in s.users {
      OtherCallEffect(s, Perform(s, AdjustScore(user, delta)), ScoreEvent(user, s.users[user].trustScore, delta), a);
    } else {
      AdoptionUntouched(s, s, a);
    }
  }

  lemma QuietEffect(s: State, step: Step, a: Id)
    requires ByOthers(step) || step.OpenEscrow?
    ensures AdoptionEffect(s, Perform(s, step), a, false)
  {
    hide AdoptionEffect, Trail;
    AdoptionUntouched(s, Perform(s, step), a);
  }

  /** What a step does to an adoption. */
  lemma StepOnAdoption(s: State, step: Step, a: Id)
    requires Inv(s)
    ensures AdoptionEffect(s, Perform(s, step), a, TornUpdate(s, step) && step.adoption == a)
  {
    hide Perform, AdoptionEffect, Inv;
    match step {
      case RequestAdoptionFor(adopter, pet) => RequestEffect(s, adopter, pet, a);
      case UpdateAdoption(b, actor, status) => UpdateEffect(s, b, actor, status, a);
      case ApproveAdoptionBy(b, admin) => ApproveEffect(s, b, admin, a);
      case RejectAdoptionOf(b) => RejectEffect(s, b, a);
      case ReleaseOf(x) => ReleaseEffect(s, x, a);
      case RefundOf(x) => RefundEffect(s, x, a);
      case CreateCustodyFor(user, pet, past, days, deposit) => CreateEffect(s, user, pet, past, days, deposit, a);
      case CloseCustodyAs(c, how) => CloseEffect(s, c, how, a);
      case AdjustScore(u, delta) => AdjustEffect(s, u, delta, a);
      case _ => QuietEffect(s, step, a);
    }
  }

  // ---- Escrows -------------------------------------------------------------------------

  /** A settlement sets the status and logs it; a torn release only logs it; otherwise the
      row stays or is funded, and the history stays. A new escrow is created and has none. */
  predicate EscrowEffect(s: State, s': State, step: Step, x: Id) {
    if x !in s.escrows then
      !Settles(s, step, x) && (x in s'.escrows ==> s'.escrows[x].status.Created? && Trail(s'.log, x) == [])
    else
      && x in s'.escrows
      && var from, to := s.escrows[x].status, s'.escrows[x].status;
         if Settles(s, step, x) then
           to == SettlesAs(step) && Trail(s'.log, x) == Trail(s.log, x) + [SettledType(to)]
         else if TornRelease(s, step) && step.escrow == x then
           to == from && Trail(s'.log, x) == Trail(s.log, x) + [EscrowReleased]
         else
           (to == from || (from.Created? && to.Funded?)) && Trail(s'.log, x) == Trail(s.log, x)
  }

  /** Steps that neither settle nor release. */
  predicate SettlesNothing(step: Step) {
    !step.ReleaseOf? && !step.RefundOf? && !step.CloseCustodyAs?
  }

  lemma EscrowUntouched(s: State, s': State, step: Step, x: Id)
    requires SettlesNothing(step)
    requires x in s.escrows ==> x in s'.escrows && s'.escrows[x] == s.escrows[x] && Trail(s'.log, x) == Trail(s.log, x)
    requires x in s'.escrows ==> x in s.escrows
    ensures EscrowEffect(s, s', step, x)
  {
  }

  lemma EscrowUnevent(s: State, s': State, step: Step, e: Event, x: Id)
    requires SettlesNothing(step) && s'.escrows == s.escrows && e.entityId !in s.escrows
    requires s'.log == s.log || s'.log == s.log + [e]
    ensures EscrowEffect(s, s', step, x)
  {
    TrailSnoc(s.log, e);
    EscrowUntouched(s, s', step, x);
  }

  lemma AdoptionCallOnEscrow(s: State, step: Step, x: Id)
    requires Inv(s)
    requires step.RequestAdoptionFor? || step.UpdateAdoption? || step.ApproveAdoptionBy? || step.RejectAdoptionOf?
    ensures EscrowEffect(s, Perform(s, step), step, x)
  {
    hide EscrowEffect, Inv, Trail;
    RowsApart(s);
    match step {
      case RequestAdoptionFor(adopter, pet) =>
        RequestDoes(s, adopter, pet);
        EscrowUnevent(s, Perform(s, step), step, RequestedEvent(s, adopter, pet), x);
      case UpdateAdoption(a, actor, status) =>
        UpdateDoes(s, a, actor, status);
        if Accepted(s, a, status) {
          var e := AdoptionEvent(s, a, actor, StatusEvent(status).GetOr(AdoptionApproved));
          EscrowUnevent(s, Perform(s, step), step, e, x);
        } else {
          EscrowUntouched(s, s, step, x);
        }
      case ApproveAdoptionBy(a, admin) =>
        ApproveDoes(s, a, admin);
        if Accepted(s, a, AdoptionStatus.Approved) {
          EscrowUnevent(s, Perform(s, step), step, AdoptionEvent(s, a, admin, AdoptionApproved), x);
        } else {
          EscrowUntouched(s, s, step, x);
        }
      case RejectAdoptionOf(_) => EscrowUntouched(s, Perform(s, step), step, x);
    }
  }

  lemma CompletionOnEscrow(s: State, escrow: Id, adoption: Id, x: Id)
    requires escrow in s.escrows && adoption in s.adoptions
    ensures var reply := CompleteByRelease(s, escrow, adoption);
            && (x !in s.adoptions ==> Trail(reply.state.log, x) == Trail(s.log, x))
            && reply.state.escrows
            == (if reply.outcome.Ok? then SetEscrow(s, escrow, EscrowStatus.Released).escrows else s.escrows)
  {
    CompletionDoes(s, escrow, adoption);
    hide CompleteByRelease;
    TrailSnoc(s.log, CompletedEvent(s, escrow, adoption));
  }

  lemma CompletesExactlyWhen(s: State, escrow: Id, adoption: Id)
    requires Inv(s) && escrow in s.escrows && adoption in s.adoptions
    ensures var t := s.(log := s.log + [SettledEvent(s, escrow, EscrowStatus.Released)]);
            CompleteByRelease(t, escrow, adoption).outcome.Ok? <==> s.adoptions[adoption].status.EscrowFunded?
  {
    assert Holds(TheReferences, s);
  }

  lemma ReleaseOutcome(s: State, escrow: Id)
    ensures Call(s, ReleaseOf(escrow)).outcome
         == if escrow !in s.escrows then Err(NotFound)
            else
              match AdoptionOf(s.adoptions, escrow, s.nextId)
              case None => Ok
              case Some(a) =>
                var t := s.(log := s.log + [SettledEvent(s, escrow, EscrowStatus.Released)]);
                CompleteByRelease(t, escrow, a).outcome
  {
  }

  lemma TornNeverSettles(s: State, step: Step, x: Id)
    requires Inv(s)
    ensures TornRelease(s, step) ==> !Settles(s, step, x)
  {
    hide CompleteByRelease, Call;
    if TornRelease(s, step) {
      ReleaseOutcome(s, step.escrow);
      CompletesExactlyWhen(s, step.escrow, AdoptionOf(s.adoptions, step.escrow, s.nextId).value);
    }
  }

  lemma ReleaseOnEscrow(s: State, escrow: Id, x: Id)
    requires Inv(s)
    ensures EscrowEffect(s, Perform(s, ReleaseOf(escrow)), ReleaseOf(escrow), x)
  {
    hide Perform, Call, CompleteByRelease, Trail, Inv;
    ReleaseDoes(s, escrow);
    ReleaseOutcome(s, escrow);
    RowsApart(s);
    if escrow in s.escrows {
      var e := SettledEvent(s, escrow, EscrowStatus.Released);
      TrailSnoc(s.log, e);
      var found := AdoptionOf(s.adoptions, escrow, s.nextId);
      if found.Some? {
        CompletesExactlyWhen(s, escrow, found.value);
        CompletionOnEscrow(s.(log := s.log + [e]), escrow, found.value, x);
      }
    }
  }

  lemma RefundOnEscrow(s: State, escrow: Id, x: Id)
    ensures EscrowEffect(s, Perform(s, RefundOf(escrow)), RefundOf(escrow), x)
  {
    if escrow in s.escrows {
      TrailSnoc(s.log, SettledEvent(s, escrow, EscrowStatus.Refunded));
    }
  }

  /** A new escrow together with an event on the next row. */
  lemma EscrowAdded(s: State, s': State, step: Step, amount: int, e: Event, x: Id)
    requires Inv(s) && SettlesNothing(step)
    requires s'.escrows == s.escrows[s.nextId := Escrow(amount, EscrowStatus.Created)]
    requires s'.log == s.log + [e] && e.entityId == s.nextId + 1
    ensures EscrowEffect(s, s', step, x)
  {
    hide Inv, Call;
    RowsApart(s);
    TrailSnoc(s.log, e);
  }

  lemma CreateOnEscrow(s: State, user: Id, pet: Id, past: bool, days: int, deposit: Option<int>, x: Id)
    requires Inv(s)
    ensures var step := CreateCustodyFor(user, pet, past, days, deposit); EscrowEffect(s, Perform(s, step), step, x)
  {
    CreateDoes(s, user, pet, past, days, deposit);
    hide CreateCustody, Inv, EscrowEffect, Trail;
    var step, e := CreateCustodyFor(user, pet, past, days, deposit), OpenedEvent(s, user, pet, deposit);
    if CreateCustody(s, user, pet, past, days, deposit).outcome.Err? {
      EscrowUntouched(s, s, step, x);
    } else if deposit.None? {
      RowsApart(s);
      EscrowUnevent(s, Perform(s, step), step, e, x);
    } else {
      EscrowAdded(s, Perform(s, step), step, deposit.value, e, x);
    }
  }

  lemma OthersHaveNoShare(s: State, custody: Id, how: Closing, x: Id)
    requires Inv(s) && custody in s.custodies && x in s.escrows
    ensures ClosingSuffix(s.custodies[custody], custody, how, x)
         == (if s.custodies[custody].escrowId == Some(x) then [SettledType(SettledStatus(how))] else [])
  {
    hide Inv;
    RowsApart(s);
    ClosingRowsApart(s, custody);
    DepositIsFree(s, custody);
  }

  lemma ClosedEscrow(s: State, custody: Id, how: Closing, x: Id)
    requires Inv(s) && CanClose(s, custody, how)
    ensures var s' := Closed(s, custody, how);
            && (x in s'.escrows <==> x in s.escrows)
            && (x in s.escrows ==>
                  if s.custodies[custody].escrowId == Some(x) then
                    && s'.escrows[x].status == SettledStatus(how)
                    && Trail(s'.log, x) == Trail(s.log, x) + [SettledType(SettledStatus(how))]
                  else s'.escrows[x] == s.escrows[x] && Trail(s'.log, x) == Trail(s.log, x))
  {
    hide Closed, Trail, Inv, ClosingSuffix;
    DepositIsFree(s, custody);
    ClosedTables(s, custody, how);
    if x in s.escrows {
      ClosedTrails(s, custody, how, x);
      OthersHaveNoShare(s, custody, how, x);
      assert Trail(s.log, x) + [] == Trail(s.log, x);
    }
  }

  lemma CloseSettlesExactlyWhen(s: State, custody: Id, how: Closing, x: Id)
    requires Inv(s)
    ensures Settles(s, CloseCustodyAs(custody, how), x)
       <==> CanClose(s, custody, how) && s.custodies[custody].escrowId == Some(x)
    ensures Settles(s, CloseCustodyAs(custody, how), x) ==> x in s.escrows
    ensures Perform(s, CloseCustodyAs(custody, how))
         == (if CanClose(s, custody, how) then Closed(s, custody, how) else s)
  {
    CloseDoes(s, custody, how);
    hide CloseCustody, Closed, Inv;
    if CanClose(s, custody, how) {
      DepositIsFree(s, custody);
    }
  }

  lemma CloseOnEscrow(s: State, custody: Id, how: Closing, x: Id)
    requires Inv(s)
    ensures EscrowEffect(s, Perform(s, CloseCustodyAs(custody, how)), CloseCustodyAs(custody, how), x)
  {
    hide Perform, Settles, Closed, Trail, Inv;
    CloseSettlesExactlyWhen(s, custody, how, x);
    if CanClose(s, custody, how) {
      ClosedEscrow(s, custody, how, x);
    }
  }

  lemma AdjustOnEscrow(s: State, user: Id, delta: real, x: Id)
    requires Inv(s)
    ensures EscrowEffect(s, Perform(s, AdjustScore(user, delta)), AdjustScore(user, delta), x)
  {
    hide Inv, Trail, EscrowEffect;
    RowsApart(s);
    var step := AdjustScore(user, delta);
    if user in s.users {
      EscrowUnevent(s, Perform(s, step), step, ScoreEvent(user, s.users[user].trustScore, delta), x);
    } else {
      EscrowUntouched(s, s, step, x);
    }
  }

  lemma OpenOnEscrow(s: State, amount: int, x: Id)
    requires Inv(s)
    ensures EscrowEffect(s, Perform(s, OpenEscrow(amount)), OpenEscrow(amount), x)
  {
    hide Inv, Trail;
    RowsApart(s);
  }

  lemma OtherStepOnEscrow(s: State, step: Step, x: Id)
    requires ByOthers(step)
    ensures EscrowEffect(s, Perform(s, step), step, x)
  {
    hide Trail;
  }

  /** What a step does to an escrow. */
  lemma StepOnEscrow(s: State, step: Step, x: Id)
    requires Inv(s)
    ensures EscrowEffect(s, Perform(s, step), step, x)
  {
    hide Perform, EscrowEffect, Inv;
    match step {
      case RequestAdoptionFor(_, _) => AdoptionCallOnEscrow(s, step, x);
      case UpdateAdoption(_, _, _) => AdoptionCallOnEscrow(s, step, x);
      case ApproveAdoptionBy(_, _) => AdoptionCallOnEscrow(s, step, x);
      case RejectAdoptionOf(_) => AdoptionCallOnEscrow(s, step, x);
      case ReleaseOf(y) => ReleaseOnEscrow(s, y, x);
      case RefundOf(y) => RefundOnEscrow(s, y, x);
      case CreateCustodyFor(user, pet, past, days, deposit) => CreateOnEscrow(s, user, pet, past, days, deposit, x);
      case CloseCustodyAs(c, how) => CloseOnEscrow(s, c, how, x);
      case OpenEscrow(amount) => OpenOnEscrow(s, amount, x);
      case AdjustScore(u, delta) => AdjustOnEscrow(s, u, delta, x);
      case _ => OtherStepOnEscrow(s, step, x);
    }
  }

  // ---- Custodies -------------------------------------------------------------------------

  /** The row stays, is activated or is closed. A new custody is pending, under a new escrow
      if any. */
  predicate CustodyEffect(s: State, s': State, step: Step, c: Id) {
    if c !in s.custodies then
      c in s'.custodies ==>
        && s'.custodies[c].status.Pending?
        && (s'.custodies[c].escrowId.Some? ==>
              s'.custodies[c].escrowId.value !in s.escrows && s'.custodies[c].escrowId.value in s'.escrows)
    else
      && c in s'.custodies
      && s'.custodies[c]
      == match step
         case CloseCustodyAs(d, how) =>
           if c == d && CanClose(s, c, how) then s.custodies[c].(status := ClosedStatus(how)) else s.custodies[c]
         case ActivateCustody(d) =>
           if c == d && s.custodies[c].status.Pending? then s.custodies[c].(status := CustodyStatus.Active)
           else s.custodies[c]
         case _ => s.custodies[c]
  }

  lemma CustodiesUntouched(s: State, step: Step, c: Id)
    requires !step.CloseCustodyAs? && !step.CreateCustodyFor? && !step.ActivateCustody? && !step.ReleaseOf?
    ensures CustodyEffect(s, Perform(s, step), step, c)
  {
    assert Perform(s, step).custodies == s.custodies;
  }

  lemma ReleaseOnCustody(s: State, escrow: Id, c: Id)
    ensures CustodyEffect(s, Perform(s, ReleaseOf(escrow)), ReleaseOf(escrow), c)
  {
    hide Perform, CompleteByRelease;
    ReleaseDoes(s, escrow);
    var found := AdoptionOf(s.adoptions, escrow, s.nextId);
    if escrow in s.escrows && found.Some? {
      CompletionDoes(s.(log := s.log + [SettledEvent(s, escrow, EscrowStatus.Released)]), escrow, found.value);
    }
  }

  lemma CreateOnCustody(s: State, user: Id, pet: Id, past: bool, days: int, deposit: Option<int>, c: Id)
    requires Inv(s)
    ensures var step := CreateCustodyFor(user, pet, past, days, deposit); CustodyEffect(s, Perform(s, step), step, c)
  {
    CreateDoes(s, user, pet, past, days, deposit);
    hide CreateCustody, Inv;
    RowsApart(s);
  }

  lemma CloseOnCustody(s: State, custody: Id, how: Closing, c: Id)
    requires Inv(s)
    ensures CustodyEffect(s, Perform(s, CloseCustodyAs(custody, how)), CloseCustodyAs(custody, how), c)
  {
    CloseDoes(s, custody, how);
    hide CloseCustody, Closed, Inv;
    if CanClose(s, custody, how) {
      DepositIsFree(s, custody);
      ClosedTables(s, custody, how);
    }
  }

  lemma ActivateOnCustody(s: State, custody: Id, c: Id)
    ensures CustodyEffect(s, Perform(s, ActivateCustody(custody)), ActivateCustody(custody), c)
  {
  }

  /** What a step does to a custody. */
  lemma StepOnCustody(s: State, step: Step, c: Id)
    requires Inv(s)
    ensures CustodyEffect(s, Perform(s, step), step, c)
  {
    hide Perform, CustodyEffect, Inv;
    match step {
      case ReleaseOf(x) => ReleaseOnCustody(s, x, c);
      case CreateCustodyFor(user, pet, past, days, deposit) => CreateOnCustody(s, user, pet, past, days, deposit, c);
      case CloseCustodyAs(d, how) => CloseOnCustody(s, d, how, c);
      case ActivateCustody(d) => ActivateOnCustody(s, d, c);
      case _ => CustodiesUntouched(s, step, c);
    }
  }
}
