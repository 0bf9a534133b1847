/** What the workflow guarantees about every state its runs reach. */
module WorkflowTheorems {
  import opened Wrappers
  import opened Schema
  import opened Workflow
  import opened WorkflowInvariant
  import opened WorkflowClosing
  import opened WorkflowRuns
  import opened WorkflowEffects
  import opened WorkflowPromises
  import AdoptionStateMachine

  // ---- Throwing calls -------------------------------------------------------------

  /** `releaseEscrow` logs the release before it looks at the adoption. In any state it
      throws with the release logged but not done exactly when the escrow exists and is tied
      to an adoption that is not funded, or whose pet or adopter is gone. */
  lemma ReleaseTearsExactlyWhen(s: State, escrow: Id)
    ensures var reply := ReleaseEscrow(s, escrow);
            && (reply.outcome.Err? && reply.state != s
                <==> escrow in s.escrows
                     && AdoptionOf(s.adoptions, escrow, s.nextId).Some?
                     && var row := s.adoptions[AdoptionOf(s.adoptions, escrow, s.nextId).value];
                        !(row.status.EscrowFunded? && row.petId in s.pets && row.adopterId in s.users))
            && (reply.outcome.Err? ==> reply.state.escrows == s.escrows && reply.state.adoptions == s.adoptions)
  {
    if escrow in s.escrows {
      var e := SettledEvent(s, escrow, EscrowStatus.Released);
      assert |s.log + [e]| == |s.log| + 1;
    }
  }

  lemma UpdateTears(s: State, step: Step)
    requires step.UpdateAdoption?
    ensures Call(s, step).outcome.Err? && Perform(s, step) != s <==> TornUpdate(s, step)
  {
    UpdateDoes(s, step.adoption, step.actor, step.status);
    if Accepted(s, step.adoption, step.status) {
      AdoptionStateMachine.TransitionsClimb(s.adoptions[step.adoption].status);
      assert SetAdoption(s, step.adoption, step.status).adoptions[step.adoption].status
          != s.adoptions[step.adoption].status;
    }
  }

  lemma AdoptionExists(s: State, a: Id)
    requires Inv(s) && a in s.adoptions
    ensures s.adoptions[a].petId in s.pets && s.adoptions[a].adopterId in s.users
  {
    assert Holds(TheReferences, s);
  }

  /** In every state a run reaches, a call that throws leaves the database as it was, with
      exactly two exceptions: a status update that cannot log its event, and the release of
      an escrow tied to an adoption that is not funded. */
  lemma ThrowsChangeStateExactlyWhen(run: seq<Step>, step: Step)
    ensures var s := After(EMPTY_STATE, run);
            Call(s, step).outcome.Err? && Perform(s, step) != s <==> TornUpdate(s, step) || TornRelease(s, step)
  {
    hide After;
    var s := After(EMPTY_STATE, run);
    Reachable(run);
    match step {
      case RequestAdoptionFor(adopter, pet) => RequestDoes(s, adopter, pet);
      case UpdateAdoption(_, _, _) => UpdateTears(s, step);
      case ApproveAdoptionBy(a, admin) => ApproveDoes(s, a, admin);
      case ReleaseOf(x) =>
        ReleaseTearsExactlyWhen(s, x);
        var a := AdoptionOf(s.adoptions, x, s.nextId);
        if a.Some? {
          AdoptionExists(s, a.value);
        }
      case CreateCustodyFor(user, pet, past, days, deposit) => CreateDoes(s, user, pet, past, days, deposit);
      case CloseCustodyAs(c, how) => CloseDoes(s, c, how);
      case _ =>
    }
  }

  /** In every state a run reaches, closing any custody in any way is all or nothing: it
      throws exactly at its guard and then leaves the database as it was; otherwise it closes
      the custody, settles its escrow, and what `depositHandling` says about a cancelled
      deposit makes no difference to its refund. */
  lemma ReachableClosings(run: seq<Step>, custody: Id, how: Closing)
    ensures var s := After(EMPTY_STATE, run);
            var reply := CloseCustody(s, custody, how);
            && (reply.outcome.Err? <==> !CanClose(s, custody, how))
            && (reply.outcome.Err? ==> reply.state == s)
            && (reply.outcome.Ok? ==>
                  && reply.state == Closed(s, custody, how)
                  && var row := s.custodies[custody];
                     && reply.state.custodies == SetCustody(s, custody, ClosedStatus(how)).custodies
                     && (row.escrowId.Some? ==>
                           && row.escrowId.value in reply.state.escrows
                           && reply.state.escrows[row.escrowId.value].status
                           == (if how.Return? then EscrowStatus.Released else EscrowStatus.Refunded)))
  {
    Reachable(run);
    var s := After(EMPTY_STATE, run);
    CloseDoes(s, custody, how);
    if CanClose(s, custody, how) {
      DepositIsFree(s, custody);
      ClosedTables(s, custody, how);
    }
  }

  // ---- Adoptions -----------------------------------------------------------------

  /** A pet never has two adoptions in progress. */
  lemma AtMostOneOpenAdoption(run: seq<Step>, a: Id, b: Id)
    requires var adoptions := After(EMPTY_STATE, run).adoptions;
             && a in adoptions && b in adoptions && adoptions[a].petId == adoptions[b].petId
             && AdoptionStateMachine.Open(adoptions[a].status) && AdoptionStateMachine.Open(adoptions[b].status)
    ensures a == b
  {
    Reachable(run);
    assert Holds(TheOpenAdoptions, After(EMPTY_STATE, run));
  }

  /** The types of the events on a custody are exactly those its status stands for. */
  lemma CustodyHistoryMatches(run: seq<Step>, custody: Id)
    requires custody in After(EMPTY_STATE, run).custodies
    ensures var s := After(EMPTY_STATE, run);
            Trail(s.log, custody) == CustodyTrail(s.custodies[custody].status)
  {
    Reachable(run);
    assert Holds(TheCustodies, After(EMPTY_STATE, run));
  }

  /** So are those on an adoption, in every run in which no update of its status fails to
      log its event; and they are so in all states of a run only then. */
  lemma AdoptionHistoryMatches(run: seq<Step>, adoption: Id)
    ensures KeptThroughout(HistoryOf(adoption), EMPTY_STATE, run) <==> Careful(HistoryOf(adoption), EMPTY_STATE, run)
    ensures var s := After(EMPTY_STATE, run);
            Careful(HistoryOf(adoption), EMPTY_STATE, run) && adoption in s.adoptions ==>
              Trail(s.log, adoption) == AdoptionTrail(s.adoptions[adoption].status)
  {
    PromiseKeptExactlyWhen(HistoryOf(adoption), run);
    if Careful(HistoryOf(adoption), EMPTY_STATE, run) {
      assert Kept(HistoryOf(adoption), After(EMPTY_STATE, run));
    }
  }

  /** `updateAdoptionStatus` is not transactional, and this is exactly what that costs: an
      accepted update leaves row and history in step if and only if its status logs no
      event, or the actor is missing or a registered user. */
  lemma UpdateKeepsHistoryExactlyWhen(s: State, adoption: Id, actor: Option<Id>, status: AdoptionStatus)
    requires Accepted(s, adoption, status) && Kept(HistoryOf(adoption), s)
    ensures var s' := UpdateAdoptionStatus(s, adoption, actor, status).state;
            && adoption in s'.adoptions && s'.adoptions[adoption].status == status
            && (Trail(s'.log, adoption) == AdoptionTrail(status)
                <==> StatusEvent(status).None? || actor.None? || actor.value in s.users)
  {
    UpdateDoes(s, adoption, actor, status);
    UpdateEffect(s, adoption, actor, status, adoption);
    TrailsFollowTransitions(s.adoptions[adoption].status, status);
  }

  // ---- Trust scores ---------------------------------------------------------------

  /** Whoever changes scores by whatever amounts: every score stays between 0 and 100 and
      is what the user's last TRUST_SCORE_UPDATED event reported, and these events form a
      chain, each starting from the score its predecessor for the same user reported. */
  lemma ScoreIsLastReported(run: seq<Step>, user: Id)
    requires user in After(EMPTY_STATE, run).users
    ensures var s := After(EMPTY_STATE, run);
            && s.users[user].trustScore == LastScore(s.log, user)
            && 0.0 <= s.users[user].trustScore <= 100.0
            && Chained(s.log)
  {
    var s := After(EMPTY_STATE, run);
    Reachable(run);
    assert Holds(TheScores, s);
    assert Holds(TheChain, s);
    assert LastScore(s.log, user) == ScoreOf(s.users, user);
  }

  /** A score is a function of the custody events, the clamped sum of +5 per return and -15
      per violation in log order, in every run in which nobody else changes it; and it is
      that in all states of a run only then. */
  lemma ScoreIsHistory(run: seq<Step>, user: Id)
    ensures KeptThroughout(EarningsOf(user), EMPTY_STATE, run) <==> Careful(EarningsOf(user), EMPTY_STATE, run)
    ensures var s := After(EMPTY_STATE, run);
            Careful(EarningsOf(user), EMPTY_STATE, run) && user in s.users ==>
              s.users[user].trustScore == ScoreFold(s.log, user)
  {
    PromiseKeptExactlyWhen(EarningsOf(user), run);
    if Careful(EarningsOf(user), EMPTY_STATE, run) && user in After(EMPTY_STATE, run).users {
      assert Kept(EarningsOf(user), After(EMPTY_STATE, run));
      ScoreIsLastReported(run, user);
    }
  }
}
