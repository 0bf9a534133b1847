/** What the events of adoptions and escrows replay to at the end of any run, compared with
    their rows. */
module WorkflowRecords {
  import opened Wrappers
  import opened Schema
  import opened Workflow
  import opened WorkflowInvariant
  import opened WorkflowRuns
  import opened WorkflowEffects
  import opened WorkflowPromises
  import opened WorkflowSettlements
  import AdoptionStateMachine
  import Reducers

  // ---- Adoptions ---------------------------------------------------------------------

  /** What an adoption's events replay to once they are all logged, given its status. */
  function LoggedAdoption(status: AdoptionStatus): AdoptionStatus {
    match status
    case Requested => AdoptionStatus.Requested
    case Pending => AdoptionStatus.Requested
    case Rejected => AdoptionStatus.Requested
    case Approved => AdoptionStatus.Approved
    case EscrowFunded => AdoptionStatus.Approved
    case Cancelled => AdoptionStatus.Approved
    case Completed => AdoptionStatus.Completed
  }

  function AdoptionRecord(status: AdoptionStatus): Reducers.Record {
    map[Reducers.StatusField := Reducers.AdoptionValue(status)]
  }

  function AdoptionReplay(log: seq<Event>, adoption: Id): Reducers.Record {
    Reducers.ReplayTypes(AdoptionEntity, Trail(log, adoption))
  }

  /** The step gives the adoption another status. */
  predicate ChangesStatus(s: State, step: Step, a: Id) {
    var s' := Perform(s, step);
    a in s.adoptions && a in s'.adoptions && s'.adoptions[a].status != s.adoptions[a].status
  }

  /** The adoption's last status change that has an event, if any, logged it. Earlier ones
      do not matter, and neither do changes without an event. */
  predicate LastEventLogged(s: State, run: seq<Step>, a: Id, before: bool)
    decreases |run|
  {
    if run == [] then before
    else LastEventLogged(Perform(s, run[0]), run[1..], a, EventLogged(s, run[0], a, before))
  }

  predicate EventLogged(s: State, step: Step, a: Id, before: bool) {
    if !ChangesStatus(s, step, a) || StatusEvent(Perform(s, step).adoptions[a].status).None? then before
    else !TornUpdate(s, step)
  }

  /** The adoption's last status change, if any, logged nothing on it. */
  predicate LastChangeSilent(s: State, run: seq<Step>, a: Id, before: bool)
    decreases |run|
  {
    if run == [] then before
    else LastChangeSilent(Perform(s, run[0]), run[1..], a, ChangeSilent(s, run[0], a, before))
  }

  predicate ChangeSilent(s: State, step: Step, a: Id, before: bool) {
    if !ChangesStatus(s, step, a) then before
    else Trail(Perform(s, step).log, a) == Trail(s.log, a)
  }

  /** An adoption's events replay to the last event-bearing status it went through, as far
      as logged: never ahead of its row, and level with it exactly when `logged`. */
  predicate AdoptionStanding(s: State, a: Id, logged: bool, silent: bool) {
    if a !in s.adoptions then logged && !silent
    else
      var status, r := s.adoptions[a].status, AdoptionReplay(s.log, a);
      && Reducers.StatusField in r && r[Reducers.StatusField].AdoptionValue?
      && var replayed := r[Reducers.StatusField].adoption;
         && r == AdoptionRecord(replayed)
         && (if logged then replayed == LoggedAdoption(status)
             else AdoptionStateMachine.Rank(replayed) < AdoptionStateMachine.Rank(LoggedAdoption(status)))
         && (silent <==> LoggedAdoption(status) != status || !logged)
  }

  lemma AppendedAdoption(trail: seq<EventType>, status: AdoptionStatus)
    requires StatusEvent(status).Some?
    ensures Reducers.ReplayTypes(AdoptionEntity, trail + EventsFor(status)) == AdoptionRecord(status)
  {
    hide Reducers.ReplayTypes;
    Reducers.TypesSnoc(AdoptionEntity, trail, StatusEvent(status).value);
    StatusOnly(AdoptionEntity, trail);
  }

  lemma RequestedAdoption()
    ensures Reducers.ReplayTypes(AdoptionEntity, [AdoptionRequested]) == AdoptionRecord(AdoptionStatus.Requested)
  {
    Reducers.TypesSnoc(AdoptionEntity, [], AdoptionRequested);
    assert [] + [AdoptionRequested] == [AdoptionRequested];
  }

  lemma StandingStep(s: State, step: Step, a: Id, logged: bool, silent: bool)
    requires Inv(s) && AdoptionStanding(s, a, logged, silent)
    ensures AdoptionStanding(Perform(s, step), a, EventLogged(s, step, a, logged), ChangeSilent(s, step, a, silent))
  {
    hide Perform, Inv, Trail, Reducers.ReplayTypes;
    StepOnAdoption(s, step, a);
    RequestedAdoption();
    var s' := Perform(s, step);
    if ChangesStatus(s, step, a) {
      var to := s'.adoptions[a].status;
      if StatusEvent(to).Some? {
        AppendedAdoption(Trail(s.log, a), to);
        assert |Trail(s.log, a) + EventsFor(to)| == |Trail(s.log, a)| + 1;
      } else {
        assert Trail(s.log, a) + EventsFor(to) == Trail(s.log, a);
      }
      OnlyItsUpdateTears(s, step, a);
    }
  }

  lemma OnlyItsUpdateTears(s: State, step: Step, a: Id)
    ensures TornUpdate(s, step) && ChangesStatus(s, step, a) ==> step.adoption == a
  {
    if TornUpdate(s, step) {
      UpdateDoes(s, step.adoption, step.actor, step.status);
    }
  }

  lemma {:induction false} StandingRun(s: State, run: seq<Step>, a: Id, logged: bool, silent: bool)
    requires Inv(s) && AdoptionStanding(s, a, logged, silent)
    ensures AdoptionStanding(After(s, run), a, LastEventLogged(s, run, a, logged), LastChangeSilent(s, run, a, silent))
    decreases |run|
  {
    hide Perform, AdoptionStanding, EventLogged, ChangeSilent, Inv;
    if run != [] {
      StepKeepsInv(s, run[0]);
      StandingStep(s, run[0], a, logged, silent);
      StandingRun(Perform(s, run[0]), run[1..], a, EventLogged(s, run[0], a, logged),
                  ChangeSilent(s, run[0], a, silent));
    }
  }

  /** Over every run: an adoption's events replay to the last of REQUESTED, APPROVED and
      COMPLETED it went through if and only if its last status change that has an event
      logged it; and to its very status if and only if its last change was not silent. */
  lemma AdoptionReplaysExactlyWhen(run: seq<Step>, a: Id)
    requires a in After(EMPTY_STATE, run).adoptions
    ensures var s := After(EMPTY_STATE, run);
            var status := s.adoptions[a].status;
            && (AdoptionReplay(s.log, a) == AdoptionRecord(LoggedAdoption(status))
                <==> LastEventLogged(EMPTY_STATE, run, a, true))
            && (AdoptionReplay(s.log, a) == AdoptionRecord(status) <==> !LastChangeSilent(EMPTY_STATE, run, a, false))
            && exists v :: AdoptionReplay(s.log, a) == AdoptionRecord(v)
  {
    hide After, Trail, Reducers.ReplayTypes, LastEventLogged, LastChangeSilent;
    EmptyIsFine();
    StandingRun(EMPTY_STATE, run, a, true, false);
    var s := After(EMPTY_STATE, run);
    var r := AdoptionReplay(s.log, a);
    assert r == AdoptionRecord(r[Reducers.StatusField].adoption);
    RecordsDiffer(r[Reducers.StatusField].adoption, s.adoptions[a].status);
    RecordsDiffer(r[Reducers.StatusField].adoption, LoggedAdoption(s.adoptions[a].status));
  }

  lemma RecordsDiffer(a: AdoptionStatus, b: AdoptionStatus)
    ensures AdoptionRecord(a) == AdoptionRecord(b) <==> a == b
  {
    assert AdoptionRecord(a)[Reducers.StatusField] == Reducers.AdoptionValue(a);
    assert AdoptionRecord(b)[Reducers.StatusField] == Reducers.AdoptionValue(b);
  }

  // ---- Escrows -------------------------------------------------------------------------

  /** The log ends in a release of the escrow that was not done: one was logged while the row
      was not released, and no settlement came after it. */
  predicate ReleaseOnlyLogged(s: State, run: seq<Step>, x: Id, before: bool)
    decreases |run|
  {
    if run == [] then before
    else ReleaseOnlyLogged(Perform(s, run[0]), run[1..], x, OnlyLogged(s, run[0], x, before))
  }

  predicate OnlyLogged(s: State, step: Step, x: Id, before: bool) {
    Overstates(s, step, x) || (before && !Settles(s, step, x))
  }

  /** An escrow's events replay to its row, or, where a release was only logged, to a release
      its row does not show. */
  predicate EscrowStanding(s: State, x: Id, onlyLogged: bool) {
    if x !in s.escrows then !onlyLogged
    else if onlyLogged then
      EscrowReplay(s.log, x) == EscrowRecord(EscrowStatus.Released) && !s.escrows[x].status.Released?
    else EscrowReplay(s.log, x) == EscrowRecord(s.escrows[x].status)
  }

  lemma EscrowStandingStep(s: State, step: Step, x: Id, onlyLogged: bool)
    requires Inv(s) && EscrowStanding(s, x, onlyLogged)
    ensures EscrowStanding(Perform(s, step), x, OnlyLogged(s, step, x, onlyLogged))
  {
    hide Perform, Inv, Trail, Settles, Reducers.ReplayTypes;
    StepOnEscrow(s, step, x);
    EmptyRecord();
    if x in s.escrows {
      TornNeverSettles(s, step, x);
      SettledRecord(Trail(s.log, x), SettlesAs(step));
      SettledRecord(Trail(s.log, x), EscrowStatus.Released);
    }
  }

  lemma {:induction false} EscrowStandingRun(s: State, run: seq<Step>, x: Id, onlyLogged: bool)
    requires Inv(s) && EscrowStanding(s, x, onlyLogged)
    ensures EscrowStanding(After(s, run), x, ReleaseOnlyLogged(s, run, x, onlyLogged))
    decreases |run|
  {
    hide Perform, EscrowStanding, OnlyLogged, Inv;
    if run != [] {
      StepKeepsInv(s, run[0]);
      EscrowStandingStep(s, run[0], x, onlyLogged);
      EscrowStandingRun(Perform(s, run[0]), run[1..], x, OnlyLogged(s, run[0], x, onlyLogged));
    }
  }

  /** Over every run: the events of any escrow, of a custody, of an adoption or free, replay
      to its row, or to a release that was only logged. */
  lemma EscrowReplaysExactlyWhen(run: seq<Step>, x: Id)
    requires x in After(EMPTY_STATE, run).escrows
    ensures var s := After(EMPTY_STATE, run);
            var onlyLogged := ReleaseOnlyLogged(EMPTY_STATE, run, x, false);
            && (EscrowReplay(s.log, x) == EscrowRecord(s.escrows[x].status) <==> !onlyLogged)
            && (onlyLogged ==> EscrowReplay(s.log, x) == EscrowRecord(EscrowStatus.Released)
                               && !s.escrows[x].status.Released?)
  {
    hide After, Trail, Reducers.ReplayTypes, ReleaseOnlyLogged;
    EmptyIsFine();
    EscrowStandingRun(EMPTY_STATE, run, x, false);
    assert Reducers.StatusField in EscrowRecord(EscrowStatus.Released);
  }

  lemma {:induction false} TieStaysInRun(s: State, run: seq<Step>, adoption: Id, escrow: Id)
    requires Inv(s) && Tied(s, adoption, escrow)
    ensures Tied(After(s, run), adoption, escrow)
    decreases |run|
  {
    hide Perform, Tied, Inv;
    if run != [] {
      StepKeepsInv(s, run[0]);
      TieStays(s, run[0], adoption, escrow);
      TieStaysInRun(Perform(s, run[0]), run[1..], adoption, escrow);
    }
  }

  predicate CustodyHas(s: State, custody: Id, escrow: Id) {
    custody in s.custodies && s.custodies[custody].escrowId == Some(escrow)
  }

  lemma NoEscrowOfBoth(s: State, custody: Id, adoption: Id, escrow: Id)
    requires Inv(s) && CustodyHas(s, custody, escrow)
    ensures !Tied(s, adoption, escrow)
  {
    assert Holds(TheOwnership, s);
  }

  /** An escrow that ends up with a custody never was an adoption's, so no release of it
      is ever only logged. */
  lemma {:induction false} CustodyEscrowsAreCareful(s: State, run: seq<Step>, custody: Id, escrow: Id)
    requires Inv(s) && CustodyHas(After(s, run), custody, escrow)
    ensures Careful(RecordOf(escrow), s, run)
    decreases |run|
  {
    hide Perform, Inv, CustodyHas, Tied;
    if run != [] {
      StepKeepsInv(s, run[0]);
      CustodyEscrowsAreCareful(Perform(s, run[0]), run[1..], custody, escrow);
      if Overstates(s, run[0], escrow) {
        var a := AdoptionOf(s.adoptions, escrow, s.nextId).value;
        FoundIsTied(s, escrow);
        TieStaysInRun(s, run, a, escrow);
        RunKeepsInv(s, run);
        NoEscrowOfBoth(After(s, run), custody, a, escrow);
        assert false;
      }
    }
  }

  lemma FoundIsTied(s: State, escrow: Id)
    ensures var a := AdoptionOf(s.adoptions, escrow, s.nextId); a.Some? ==> Tied(s, a.value, escrow)
  {
  }

  /** So a custody's escrow always replays to its row, whoever settles it and however often. */
  lemma CustodyEscrowReplays(run: seq<Step>, custody: Id)
    requires var custodies := After(EMPTY_STATE, run).custodies;
             custody in custodies && custodies[custody].escrowId.Some?
    ensures var s := After(EMPTY_STATE, run);
            var x := s.custodies[custody].escrowId.value;
            x in s.escrows && EscrowReplay(s.log, x) == EscrowRecord(s.escrows[x].status)
  {
    var s := After(EMPTY_STATE, run);
    var x := s.custodies[custody].escrowId.value;
    EmptyIsFine();
    CustodyEscrowsAreCareful(EMPTY_STATE, run, custody, x);
    PromiseKeptExactlyWhen(RecordOf(x), run);
    DepositsHaveEscrows(run, custody);
    assert Kept(RecordOf(x), s);
  }
}
