/** Statuses only move forward: what that bounds, and what it makes final. */
module WorkflowLifecycles {
  import opened Wrappers
  import opened Schema
  import opened Workflow
  import opened WorkflowInvariant
  import opened WorkflowClosing
  import opened WorkflowRuns
  import opened Sums
  import AdoptionStateMachine
  import CustodyStateMachine

  /** A step moves any existing row at most one allowed transition along. */
  ghost predicate Advances(s: State, s': State) {
    && s.nextId <= s'.nextId
    && (forall a :: a in s.adoptions ==>
          && a in s'.adoptions
          && (s'.adoptions[a].status == s.adoptions[a].status
              || AdoptionStateMachine.CanTransition(s.adoptions[a].status, s'.adoptions[a].status)))
    && (forall c :: c in s.custodies ==>
          && c in s'.custodies
          && (s'.custodies[c].status == s.custodies[c].status
              || CustodyStateMachine.CanTransition(s.custodies[c].status, s'.custodies[c].status)))
  }

  lemma ClosingAdvances(s: State, custody: Id, how: Closing)
    requires Inv(s)
    ensures Advances(s, Perform(s, CloseCustodyAs(custody, how)))
  {
    CloseDoes(s, custody, how);
    if CanClose(s, custody, how) {
      DepositIsFree(s, custody);
      ClosedTables(s, custody, how);
    }
  }

  lemma ReleaseAdvances(s: State, escrow: Id)
    ensures Advances(s, Perform(s, ReleaseOf(escrow)))
  {
    if escrow in s.escrows {
      var t := s.(log := s.log + [SettledEvent(s, escrow, EscrowStatus.Released)]);
      match AdoptionOf(s.adoptions, escrow, s.nextId) {
        case None =>
        case Some(a) => CompletionDoes(t, escrow, a);
      }
    }
  }

  lemma RequestAdvances(s: State, adopter: Id, pet: Id)
    requires s.nextId !in s.adoptions
    ensures Advances(s, Perform(s, RequestAdoptionFor(adopter, pet)))
  {
    RequestDoes(s, adopter, pet);
  }

  lemma OneAdoptionAdvances(s: State, s': State, adoption: Id, status: AdoptionStatus)
    requires adoption in s.adoptions && AdoptionStateMachine.CanTransition(s.adoptions[adoption].status, status)
    requires s'.adoptions == SetAdoption(s, adoption, status).adoptions
    requires s'.custodies == s.custodies && s'.nextId == s.nextId
    ensures Advances(s, s')
  {
  }

  lemma StandingStillAdvances(s: State, s': State)
    requires s'.adoptions == s.adoptions && s'.custodies == s.custodies && s.nextId <= s'.nextId
    ensures Advances(s, s')
  {
  }

  lemma UpdateAdvances(s: State, adoption: Id, actor: Option<Id>, status: AdoptionStatus)
    ensures Advances(s, Perform(s, UpdateAdoption(adoption, actor, status)))
  {
    var s' := UpdateAdoptionStatus(s, adoption, actor, status).state;
    UpdateDoes(s, adoption, actor, status);
    if Accepted(s, adoption, status) {
      OneAdoptionAdvances(s, s', adoption, status);
    } else {
      StandingStillAdvances(s, s');
    }
  }

  lemma ApproveAdvances(s: State, adoption: Id, admin: Option<Id>)
    ensures Advances(s, Perform(s, ApproveAdoptionBy(adoption, admin)))
  {
    var reply := ApproveAdoption(s, adoption, admin);
    if reply.outcome.Ok? {
      OneAdoptionAdvances(s, reply.state, adoption, AdoptionStatus.Approved);
    } else {
      StandingStillAdvances(s, reply.state);
    }
  }

  lemma RejectAdvances(s: State, adoption: Id)
    ensures Advances(s, Perform(s, RejectAdoptionOf(adoption)))
  {
    var reply := RejectAdoption(s, adoption);
    if reply.outcome.Ok? {
      OneAdoptionAdvances(s, reply.state, adoption, AdoptionStatus.Rejected);
    } else {
      StandingStillAdvances(s, reply.state);
    }
  }

  lemma TiedOrActivatedAdvances(s: State, step: Step)
    requires step.AttachEscrow? || step.ActivateCustody?
    ensures Advances(s, Perform(s, step))
  {
  }

  lemma QuietStepAdvances(s: State, step: Step)
    requires step.RegisterUser? || step.AddPet? || step.FundEscrow? || step.RefundOf? || step.AdjustScore?
          || step.OpenEscrow?
    ensures Advances(s, Perform(s, step))
  {
    StandingStillAdvances(s, Perform(s, step));
  }

  lemma CreationAdvances(s: State, user: Id, pet: Id, past: bool, days: int, deposit: Option<int>)
    requires s.nextId !in s.custodies && s.nextId + 1 !in s.custodies
    ensures Advances(s, Perform(s, CreateCustodyFor(user, pet, past, days, deposit)))
  {
    CreateDoes(s, user, pet, past, days, deposit);
  }

  lemma StepAdvances(s: State, step: Step)
    requires Inv(s)
    ensures Advances(s, Perform(s, step))
  {
    hide Perform, Advances;
    assert Holds(TheIds, s);
    match step {
      case CloseCustodyAs(c, how) => ClosingAdvances(s, c, how);
      case CreateCustodyFor(user, pet, past, days, deposit) => CreationAdvances(s, user, pet, past, days, deposit);
      case ReleaseOf(x) => ReleaseAdvances(s, x);
      case RequestAdoptionFor(adopter, pet) => RequestAdvances(s, adopter, pet);
      case UpdateAdoption(a, actor, status) => UpdateAdvances(s, a, actor, status);
      case ApproveAdoptionBy(a, admin) => ApproveAdvances(s, a, admin);
      case RejectAdoptionOf(a) => RejectAdvances(s, a);
      case AttachEscrow(_, _) => TiedOrActivatedAdvances(s, step);
      case ActivateCustody(_) => TiedOrActivatedAdvances(s, step);
      case _ => QuietStepAdvances(s, step);
    }
  }

  function ChangedAt(s: State, s': State, i: Id): nat {
    (if i in s.adoptions && i in s'.adoptions && s'.adoptions[i].status != s.adoptions[i].status then 1 else 0)
    + (if i in s.custodies && i in s'.custodies && s'.custodies[i].status != s.custodies[i].status then 1 else 0)
  }

  function RankAt(s: State, i: Id): nat {
    (if i in s.adoptions then AdoptionStateMachine.Rank(s.adoptions[i].status) else 0)
    + (if i in s.custodies then CustodyStateMachine.Rank(s.custodies[i].status) else 0)
  }

  function Progress(s: State): int {
    Sum((i: Id) => RankAt(s, i), s.nextId)
  }

  /** How many status changes the steps of a run make, over all adoptions and custodies. */
  function StatusChanges(s: State, run: seq<Step>): int
    decreases |run|
  {
    if run == [] then 0
    else Sum((i: Id) => ChangedAt(s, Perform(s, run[0]), i), s.nextId) + StatusChanges(Perform(s, run[0]), run[1..])
  }

  lemma RankClimbs(s: State, s': State, i: Id)
    requires Advances(s, s')
    ensures RankAt(s, i) + ChangedAt(s, s', i) <= RankAt(s', i)
  {
    if i in s.adoptions {
      AdoptionStateMachine.TransitionsClimb(s.adoptions[i].status);
    }
    if i in s.custodies {
      CustodyStateMachine.TransitionsClimb(s.custodies[i].status);
    }
  }

  lemma StepMakesProgress(s: State, s': State)
    requires Advances(s, s')
    ensures Progress(s) + Sum((i: Id) => ChangedAt(s, s', i), s.nextId) <= Progress(s')
  {
    var rank, changed, rank' := (i: Id) => RankAt(s, i), (i: Id) => ChangedAt(s, s', i), (i: Id) => RankAt(s', i);
    var both := (i: Id) => RankAt(s, i) + ChangedAt(s, s', i);
    SumOfSums(rank, changed, both, s.nextId);
    forall i: Id | i < s.nextId ensures both(i) <= rank'(i) {
      RankClimbs(s, s', i);
    }
    SumAtMost(both, rank', s.nextId);
    var none := (i: Id) => if i < s.nextId then RankAt(s', i) else 0;
    SumSame(none, rank', s.nextId);
    SumExtend(none, s.nextId, s'.nextId);
    SumAtMost(none, rank', s'.nextId);
  }

  lemma {:induction false} ChangesAreProgress(s: State, run: seq<Step>)
    requires Inv(s)
    ensures Progress(s) + StatusChanges(s, run) <= Progress(After(s, run))
    decreases |run|
  {
    if run != [] {
      StepAdvances(s, run[0]);
      StepMakesProgress(s, Perform(s, run[0]));
      StepKeepsInv(s, run[0]);
      ChangesAreProgress(Perform(s, run[0]), run[1..]);
    }
  }

  function RowWeight(keys: set<Id>, each: nat): nat -> int {
    (i: nat) => if i in keys then each else 0
  }

  lemma CountRows(keys: set<Id>, nextId: Id, each: nat)
    requires forall i :: i in keys ==> i < nextId
    ensures Sum(RowWeight(keys, each), nextId) == each * |keys|
  {
    SumCounts(keys, RowWeight(keys, each), nextId, each);
    assert Up(keys, nextId) == keys;
  }

  lemma WeightIsBounded(s: State, four: nat -> int, two: nat -> int)
    requires four == RowWeight(s.adoptions.Keys, 4) && two == RowWeight(s.custodies.Keys, 2)
    ensures Progress(s) <= Sum(four, s.nextId) + Sum(two, s.nextId)
  {
    var most := (i: nat) => four(i) + two(i);
    SumAtMost((i: Id) => RankAt(s, i), most, s.nextId);
    SumOfSums(four, two, most, s.nextId);
  }

  lemma ProgressIsBounded(s: State)
    requires Inv(s)
    ensures Progress(s) <= 4 * |s.adoptions| + 2 * |s.custodies|
  {
    assert Holds(TheIds, s);
    WeightIsBounded(s, RowWeight(s.adoptions.Keys, 4), RowWeight(s.custodies.Keys, 2));
    CountRows(s.adoptions.Keys, s.nextId, 4);
    CountRows(s.custodies.Keys, s.nextId, 2);
  }

  /** Termination of lifecycles: a run that ends with N adoptions and M custodies has made
      at most 4N + 2M status changes. */
  lemma StatusChangesAreBounded(run: seq<Step>)
    ensures var s := After(EMPTY_STATE, run);
            StatusChanges(EMPTY_STATE, run) <= 4 * |s.adoptions| + 2 * |s.custodies|
  {
    EmptyIsFine();
    Reachable(run);
    ChangesAreProgress(EMPTY_STATE, run);
    ProgressIsBounded(After(EMPTY_STATE, run));
  }

  /** Statuses without transitions are final, whatever the rest of the run does. */
  lemma {:induction false} FinalStatusesStay(s: State, run: seq<Step>)
    requires Inv(s)
    ensures var s' := After(s, run);
            && (forall a :: a in s.adoptions && !AdoptionStateMachine.Open(s.adoptions[a].status) ==>
                  a in s'.adoptions && s'.adoptions[a].status == s.adoptions[a].status)
            && (forall c :: c in s.custodies && !CustodyStateMachine.Unsettled(s.custodies[c].status) ==>
                  c in s'.custodies && s'.custodies[c].status == s.custodies[c].status)
    decreases |run|
  {
    if run != [] {
      StepAdvances(s, run[0]);
      StepKeepsInv(s, run[0]);
      FinalStatusesStay(Perform(s, run[0]), run[1..]);
    }
  }
}
