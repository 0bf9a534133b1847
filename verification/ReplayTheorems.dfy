/** Live replay converges when it can, and what replay reports about the states the
    workflow reaches. */
module ReplayTheorems {
  import opened Wrappers
  import opened Schema
  import Workflow
  import opened Reducers
  import opened ReplayService
  import opened WorkflowInvariant
  import opened WorkflowRuns
  import opened WorkflowPromises
  import opened WorkflowRecords
  import opened WorkflowSettlements
  import opened WorkflowTheorems
  import opened WorkflowWitnesses
  import CustodyStateMachine

  // ---- Convergence --------------------------------------------------------------

  /** Other than a user's, a replay does not depend on the current row. */
  lemma RecordSame(r: Record)
    ensures Diff(r, r) == []
  {
    DiffFinds(r, r);
  }

  lemma UserDiff(replayed: real, current: real)
    ensures Diff(UserRecord(replayed), UserRecord(current)) == [] <==> Abs(replayed - current) < TOLERANCE
  {
    DiffFinds(UserRecord(replayed), UserRecord(current));
    assert TrustScoreField in UserRecord(replayed);
  }

  lemma SameEventsAgain(s: State, o: Options, kind: EntityType)
    ensures var s' := ApplyCorrectedState(s, kind, o.aggregateId, Replayed(s, o, kind));
            Events(s', o) == Events(s, o) && TypeOf(s', o) == TypeOf(s, o)
  {
    ApplyStaysInItsTable(s, kind, o.aggregateId, Replayed(s, o, kind));
  }

  /** Right after an applied replay, the same replay finds nothing exactly when it is not a
      user's, or its events hold an absolute score. */
  lemma ReplayAfterApply(s: State, o: Options, kind: EntityType)
    requires CanApply(s, o, kind)
    ensures var s' := ApplyCorrectedState(s, kind, o.aggregateId, Replayed(s, o, kind));
            Discrepancies(s', o, kind) == [] <==> !kind.UserEntity? || HasAbsolute(Events(s, o))
  {
    var r := Replayed(s, o, kind);
    var s' := ApplyCorrectedState(s, kind, o.aggregateId, r);
    AppliedIsWritten(s, o, kind);
    SameEventsAgain(s, o, kind);
    if kind.UserEntity? {
      UserReplayAfterApply(s, o, s');
    } else {
      assert Replayed(s', o, kind) == r;
      RecordSame(r);
    }
  }

  lemma UserReplayAfterApply(s: State, o: Options, s': State)
    requires CanApply(s, o, UserEntity)
    requires FetchCurrentState(s', o.aggregateId, UserEntity) == Replayed(s, o, UserEntity)
    requires Events(s', o) == Events(s, o)
    ensures Discrepancies(s', o, UserEntity) == [] <==> HasAbsolute(Events(s, o))
  {
    var events, before := Events(s, o), s.users[o.aggregateId].trustScore;
    UserClosedForm(before, events);
    var after := Replayed(s, o, UserEntity)[TrustScoreField].number;
    UserClosedForm(after, events);
    assert Replayed(s, o, UserEntity) == UserRecord(after);
    UserDiff(after, before);
    if HasAbsolute(events) {
      RecordSame(UserRecord(after));
    } else {
      UserDiff(after + Deltas(events), after);
    }
  }

  /** Convergence. After a live replay that wrote, repeating it writes again exactly when
      the aggregate is a user whose replayed events carry deltas only; otherwise it finds
      no discrepancy and leaves every table but the application log alone. */
  lemma LiveReplayConverges(s: State, o: Options)
    requires var (_, first) := AggregateReplay(s, o); first.Some? && first.value.appliedToDb
    ensures var (s1, first) := AggregateReplay(s, o);
            var (s2, second) := AggregateReplay(s1, o);
            var stable := !first.value.aggregateType.UserEntity? || HasAbsolute(Events(s, o));
            && second.Some?
            && (second.value.discrepancies == [] <==> stable)
            && (second.value.appliedToDb <==> !stable)
            && (stable ==> s2.(appLog := s1.appLog) == s1)
  {
    var kind := TypeOf(s, o).value;
    var r := Replayed(s, o, kind);
    var s' := ApplyCorrectedState(s, kind, o.aggregateId, r);
    var (s1, first) := AggregateReplay(s, o);
    ReplayAfterApply(s, o, kind);
    AppliedIsWritten(s, o, kind);
    SameEventsAgain(s, o, kind);
    assert s1 == s'.(appLog := s1.appLog);
    AppLogIsIrrelevant(s', o, kind, s1.appLog);
    if kind.UserEntity? {
      UserReplayIsNumber(s1, o);
    }
    OneAuditRowPerCall(s1, o);
  }

  lemma AppLogIsIrrelevant(s: State, o: Options, kind: EntityType, appLog: seq<Audit>)
    ensures var s' := s.(appLog := appLog);
            && TypeOf(s', o) == TypeOf(s, o) && Events(s', o) == Events(s, o)
            && FetchCurrentState(s', o.aggregateId, kind) == FetchCurrentState(s, o.aggregateId, kind)
            && Discrepancies(s', o, kind) == Discrepancies(s, o, kind)
            && CanApply(s', o, kind) == CanApply(s, o, kind)
  {
  }

  lemma UserReplayIsNumber(s: State, o: Options)
    ensures Replayed(s, o, UserEntity) != map[]
  {
    var initial := InitialStateFor(UserEntity, FetchCurrentState(s, o.aggregateId, UserEntity));
    ReplayOfKind(UserEntity, initial, Events(s, o));
    assert TrustScoreField in initial;
    assert TrustScoreField in Replayed(s, o, UserEntity);
  }

  // ---- Log and row agree ------------------------------------------------------------

  lemma {:induction false} TrailIsTypes(log: seq<Event>, id: Id)
    ensures Trail(log, id) == TypesOf(EventsOf(log, id))
    decreases |log|
  {
    if log != [] {
      TrailIsTypes(log[..|log| - 1], id);
    }
  }

  /** Replaying an entity's log is replaying its history. */
  lemma ReplayOfTrail(kind: EntityType, log: seq<Event>, id: Id)
    requires !kind.UserEntity?
    ensures Replay(kind, map[], EventsOf(log, id)) == ReplayTypes(kind, Trail(log, id))
  {
    TrailIsTypes(log, id);
    ReplayByTypes(kind, EventsOf(log, id));
  }

  /** What replay makes of a custody, given its row. */
  function LoggedCustody(status: CustodyStatus): CustodyStatus {
    if status.Active? then CustodyStatus.Pending else status
  }

  lemma OneTypeReplays(kind: EntityType, t: EventType)
    ensures ReplayTypes(kind, [t]) == Reduce(kind, map[], Event(kind, 0, t, None, OtherPayload))
  {
    TypesSnoc(kind, [], t);
    assert [] + [t] == [t];
  }

  lemma TwoTypesReplay(kind: EntityType, t: EventType, u: EventType)
    ensures ReplayTypes(kind, [t, u]) == Reduce(kind, ReplayTypes(kind, [t]), Event(kind, 0, u, None, OtherPayload))
  {
    TypesSnoc(kind, [t], u);
    assert [t] + [u] == [t, u];
  }

  lemma CustodyTrailReplays(status: CustodyStatus)
    requires !status.Completed?
    ensures ReplayTypes(CustodyEntity, CustodyTrail(status))
         == map[StatusField := CustodyValue(LoggedCustody(status))]
  {
    hide ReplayTypes;
    OneTypeReplays(CustodyEntity, CustodyStarted);
    TwoTypesReplay(CustodyEntity, CustodyStarted, CustodyReturned);
    TwoTypesReplay(CustodyEntity, CustodyStarted, CustodyViolation);
    TwoTypesReplay(CustodyEntity, CustodyStarted, EventType.CustodyCancelled);
  }

  /** Replaying everything logged about a custody gives its row status, except that an
      active custody replays to pending. */
  lemma CustodyLogReplays(run: seq<Step>, custody: Id)
    requires custody in After(EMPTY_STATE, run).custodies
    ensures var s := After(EMPTY_STATE, run);
            Replay(CustodyEntity, map[], EventsOf(s.log, custody))
            == map[StatusField := CustodyValue(LoggedCustody(s.custodies[custody].status))]
  {
    var s := After(EMPTY_STATE, run);
    DepositsHaveEscrows(run, custody);
    CustodyHistoryMatches(run, custody);
    ReplayOfTrail(CustodyEntity, s.log, custody);
    CustodyTrailReplays(s.custodies[custody].status);
  }

  /** Replaying everything logged about an adoption gives REQUESTED, APPROVED or COMPLETED,
      whichever it last went through, if and only if the last status change that has an event
      logged it. */
  lemma AdoptionLogReplays(run: seq<Step>, adoption: Id)
    requires adoption in After(EMPTY_STATE, run).adoptions
    ensures var s := After(EMPTY_STATE, run);
            Replay(AdoptionEntity, map[], EventsOf(s.log, adoption))
            == map[StatusField := AdoptionValue(LoggedAdoption(s.adoptions[adoption].status))]
            <==> LastEventLogged(EMPTY_STATE, run, adoption, true)
  {
    AdoptionReplaysExactlyWhen(run, adoption);
    ReplayOfTrail(AdoptionEntity, After(EMPTY_STATE, run).log, adoption);
  }

  /** Replaying any escrow gives its settled status, or nothing while it is unsettled, if and
      only if its log does not end in a release that was not done; then it gives RELEASED. */
  lemma EscrowLogReplaysExactlyWhen(run: seq<Step>, escrow: Id)
    requires escrow in After(EMPTY_STATE, run).escrows
    ensures var s := After(EMPTY_STATE, run);
            var replayed := Replay(EscrowEntity, map[], EventsOf(s.log, escrow));
            var onlyLogged := ReleaseOnlyLogged(EMPTY_STATE, run, escrow, false);
            && (replayed == EscrowRecord(s.escrows[escrow].status) <==> !onlyLogged)
            && (onlyLogged ==> replayed == map[StatusField := EscrowValue(EscrowStatus.Released)])
  {
    EscrowReplaysExactlyWhen(run, escrow);
    ReplayOfTrail(EscrowEntity, After(EMPTY_STATE, run).log, escrow);
  }

  /** Replaying a custody's escrow gives its settled status, or nothing while it is unsettled,
      after any run, whoever settled it. */
  lemma EscrowLogReplays(run: seq<Step>, custody: Id)
    requires var s := After(EMPTY_STATE, run); custody in s.custodies && s.custodies[custody].escrowId.Some?
    ensures var s := After(EMPTY_STATE, run);
            var x := s.custodies[custody].escrowId.value;
            && x in s.escrows
            && Replay(EscrowEntity, map[], EventsOf(s.log, x))
            == (if Held(s.escrows[x].status) then map[] else map[StatusField := EscrowValue(s.escrows[x].status)])
  {
    var s := After(EMPTY_STATE, run);
    CustodyEscrowReplays(run, custody);
    ReplayOfTrail(EscrowEntity, s.log, s.custodies[custody].escrowId.value);
  }

  /** With the escrow left to the custody service, that is the status which goes with the
      custody's. */
  lemma EscrowLogFollowsCustody(run: seq<Step>, custody: Id)
    requires Careful(SettlementOf(custody), EMPTY_STATE, run)
    requires var s := After(EMPTY_STATE, run); custody in s.custodies && s.custodies[custody].escrowId.Some?
    ensures var s := After(EMPTY_STATE, run);
            var row := s.custodies[custody];
            Replay(EscrowEntity, map[], EventsOf(s.log, row.escrowId.value))
            == (if CustodyStateMachine.Unsettled(row.status) then map[]
                else map[StatusField := EscrowValue(if row.status.Returned? then EscrowStatus.Released
                                                    else EscrowStatus.Refunded)])
  {
    DepositsHaveEscrows(run, custody);
    EscrowFollowsCustody(run, custody);
    EscrowLogReplays(run, custody);
  }

  lemma StatusDiff(replayed: Value, current: Value)
    requires !replayed.NumberValue?
    ensures Diff(map[StatusField := replayed], map[StatusField := current]) == [] <==> replayed == current
  {
    var r := map[StatusField := replayed];
    DiffFinds(r, map[StatusField := current]);
    assert StatusField in r;
  }

  /** So a replay of a whole custody reports a discrepancy exactly when it is active. */
  lemma CustodyReplayReportsExactlyWhen(run: seq<Step>, o: Options)
    requires o.upToSequence.None? && o.aggregateId in After(EMPTY_STATE, run).custodies
    ensures var s := After(EMPTY_STATE, run);
            Discrepancies(s, o, CustodyEntity) == [] <==> !s.custodies[o.aggregateId].status.Active?
  {
    CustodyLogReplays(run, o.aggregateId);
    var status := After(EMPTY_STATE, run).custodies[o.aggregateId].status;
    StatusDiff(CustodyValue(LoggedCustody(status)), CustodyValue(status));
  }

  /** One of a whole adoption does so exactly when its last status change logged no event. */
  lemma AdoptionReplayReportsExactlyWhen(run: seq<Step>, o: Options)
    requires o.upToSequence.None? && o.aggregateId in After(EMPTY_STATE, run).adoptions
    ensures var s := After(EMPTY_STATE, run);
            Discrepancies(s, o, AdoptionEntity) != [] <==> LastChangeSilent(EMPTY_STATE, run, o.aggregateId, false)
  {
    hide After, LastChangeSilent, LastEventLogged;
    var s := After(EMPTY_STATE, run);
    AdoptionReplaysExactlyWhen(run, o.aggregateId);
    ReplayOfTrail(AdoptionEntity, s.log, o.aggregateId);
    var v :| AdoptionReplay(s.log, o.aggregateId) == AdoptionRecord(v);
    RecordsDiffer(v, s.adoptions[o.aggregateId].status);
    StatusDiff(AdoptionValue(v), AdoptionValue(s.adoptions[o.aggregateId].status));
  }

  /** One of a whole escrow does so exactly when its log ends in a release that was not done;
      a live replay is then applied, and marks the escrow as released. */
  lemma EscrowReplayReportsExactlyWhen(run: seq<Step>, o: Options)
    requires o.upToSequence.None? && o.aggregateId in After(EMPTY_STATE, run).escrows
    ensures var s := After(EMPTY_STATE, run);
            var x, onlyLogged := o.aggregateId, ReleaseOnlyLogged(EMPTY_STATE, run, o.aggregateId, false);
            && (Discrepancies(s, o, EscrowEntity) != [] <==> onlyLogged)
            && (CanApply(s, o, EscrowEntity) <==> onlyLogged && !o.dryRun)
            && (onlyLogged ==>
                  && !s.escrows[x].status.Released?
                  && var s' := ApplyCorrectedState(s, EscrowEntity, x, Replayed(s, o, EscrowEntity));
                     x in s'.escrows && s'.escrows[x].status.Released?)
  {
    hide After, ReleaseOnlyLogged, Diff;
    var s, x := After(EMPTY_STATE, run), o.aggregateId;
    EscrowReplaysExactlyWhen(run, x);
    ReplayOfTrail(EscrowEntity, s.log, x);
    var status := s.escrows[x].status;
    EscrowDiff(EscrowReplay(s.log, x), status);
    assert StatusField in FetchCurrentState(s, x, EscrowEntity);
    assert StatusField in EscrowRecord(EscrowStatus.Released);
  }

  lemma EscrowDiff(replayed: Record, status: EscrowStatus)
    requires replayed == EscrowRecord(status) || replayed == EscrowRecord(EscrowStatus.Released)
    ensures Diff(replayed, map[StatusField := EscrowValue(status)]) == []
       <==> replayed == map[] || replayed == map[StatusField := EscrowValue(status)]
  {
    if replayed == map[] {
      DiffFinds(replayed, map[StatusField := EscrowValue(status)]);
    } else {
      StatusDiff(replayed[StatusField], EscrowValue(status));
    }
  }

  lemma TornTrail()
    ensures EscrowReplay([REQUEST, Workflow.SettledEvent(TIED, 3, EscrowStatus.Released)], 3)
         != EscrowRecord(EscrowStatus.Created)
  {
    TrailSnoc([REQUEST], Workflow.SettledEvent(TIED, 3, EscrowStatus.Released));
    assert [REQUEST] + [Workflow.SettledEvent(TIED, 3, EscrowStatus.Released)]
        == [REQUEST, Workflow.SettledEvent(TIED, 3, EscrowStatus.Released)];
    TrailSnoc([], REQUEST);
    assert [] + [REQUEST] == [REQUEST];
    OneTypeReplays(EscrowEntity, EscrowReleased);
    assert [] + [EscrowReleased] == [EscrowReleased];
    assert StatusField in map[StatusField := EscrowValue(EscrowStatus.Released)];
  }

  /** A release that throws is enough: nothing was paid out, and a live replay of the escrow
      marks it as released. */
  lemma ReplayCanReleaseUnpaid(o: Options)
    requires o.aggregateId == 3 && o.upToSequence.None? && !o.dryRun
    ensures var s := After(EMPTY_STATE, TORN_RUN);
            && Settlements(EMPTY_STATE, TORN_RUN, 3) == 0
            && 3 in s.escrows && s.escrows[3].status.Created?
            && CanApply(s, o, EscrowEntity)
            && var s' := ApplyCorrectedState(s, EscrowEntity, 3, Replayed(s, o, EscrowEntity));
               3 in s'.escrows && s'.escrows[3].status.Released?
  {
    hide After, Settlements, ReleaseOnlyLogged;
    TornRun();
    TornTrail();
    EmptyIsFine();
    UnsettledMeansNone(EMPTY_STATE, TORN_RUN, 3);
    EscrowReplaysExactlyWhen(TORN_RUN, 3);
    EscrowReplayReportsExactlyWhen(TORN_RUN, o);
  }

  // ---- Users: the row already holds what the deltas say ---------------------------------

  /** The sum of the deltas ever logged for a user, clamping left out. */
  function LoggedDeltas(log: seq<Event>, user: Id): real { Deltas(EventsOf(log, user)) }

  lemma {:induction false} ChainedIsNeverAbsolute(log: seq<Event>, user: Id)
    requires Chained(log)
    ensures !HasAbsolute(EventsOf(log, user))
    decreases |log|
  {
    if log != [] {
      ChainedIsNeverAbsolute(log[..|log| - 1], user);
      var rest, last := EventsOf(log[..|log| - 1], user), log[|log| - 1];
      assert !Absolute(last);
      forall k | 0 <= k < |rest + [last]| ensures !Absolute((rest + [last])[k]) {
        assert k < |rest| ==> !Absolute(rest[k]);
      }
    }
  }

  /** The score events of the workflow carry deltas, and replay adds them to a row that
      already contains them: a whole user replay yields the row plus all its deltas, so it
      agrees with the row exactly when these sum to less than the tolerance. */
  lemma UserReplayDoubles(run: seq<Step>, o: Options)
    requires o.upToSequence.None? && o.aggregateId in After(EMPTY_STATE, run).users
    ensures var s := After(EMPTY_STATE, run);
            var sum := LoggedDeltas(s.log, o.aggregateId);
            && Replayed(s, o, UserEntity) == UserRecord(s.users[o.aggregateId].trustScore + sum)
            && (Discrepancies(s, o, UserEntity) == [] <==> Abs(sum) < TOLERANCE)
  {
    hide After;
    Reachable(run);
    var s := After(EMPTY_STATE, run);
    var score, sum := s.users[o.aggregateId].trustScore, LoggedDeltas(s.log, o.aggregateId);
    assert Holds(TheChain, s);
    ChainedIsNeverAbsolute(s.log, o.aggregateId);
    DeltasOnly(score, EventsOf(s.log, o.aggregateId));
    UserDiff(score + sum, score);
  }

  lemma LoggedOneMore(log: seq<Event>, user: Id)
    requires log != []
    ensures var n := |log| - 1;
            LoggedDeltas(log, user) == LoggedDeltas(log[..n], user)
                                       + if log[n].entityId == user then DeltaOf(log[n]) else 0.0
  {
    var n := |log| - 1;
    var rest := EventsOf(log[..n], user);
    assert (rest + [log[n]])[..|rest|] == rest;
  }

  lemma ReturnedDeltas()
    ensures LoggedDeltas(RETURNED.log, 0) == 5.0
  {
    var log := RETURNED.log;
    assert LoggedDeltas(log[..0], 0) == 0.0;
    hide LoggedDeltas;
    assert log[..1][..0] == log[..0] && log[..2][..1] == log[..1] && log[..3][..2] == log[..2] && log[..4] == log;
    LoggedOneMore(log[..1], 0);
    LoggedOneMore(log[..2], 0);
    LoggedOneMore(log[..3], 0);
    LoggedOneMore(log, 0);
  }

  /** One returned custody is enough for a user's replay to disagree with the row: 60, not 55. */
  lemma UserReplayCanDouble(o: Options)
    requires o.aggregateId == 0 && o.upToSequence.None?
    ensures var s := After(EMPTY_STATE, RETURN_RUN);
            && s.users == map[0 := User(55.0)]
            && Replayed(s, o, UserEntity) == UserRecord(60.0)
            && Discrepancies(s, o, UserEntity) != []
  {
    ReturnRun();
    ReturnedDeltas();
    UserReplayDoubles(RETURN_RUN, o);
  }

  // ---- Replaying a user again and again ---------------------------------------------------

  function ReplayTimes(s: State, o: Options, n: nat): State {
    if n == 0 then s else AggregateReplay(ReplayTimes(s, o, n - 1), o).0
  }

  /** A live replay of a user whose events hold deltas only, and not next to nothing. */
  ghost predicate DeltaReplay(s: State, o: Options) {
    && !o.dryRun && TypeOf(s, o) == Some(UserEntity) && o.aggregateId in s.users
    && !HasAbsolute(Events(s, o)) && Abs(Deltas(Events(s, o))) >= TOLERANCE
  }

  lemma DeltaReplayStep(s: State, o: Options)
    requires DeltaReplay(s, o)
    ensures var (s', response) := AggregateReplay(s, o);
            && response.Some? && response.value.appliedToDb
            && DeltaReplay(s', o) && s'.log == s.log && o.aggregateId in s.users && o.aggregateId in s'.users
            && s'.users[o.aggregateId].trustScore == s.users[o.aggregateId].trustScore + Deltas(Events(s, o))
  {
    var before, sum := s.users[o.aggregateId].trustScore, Deltas(Events(s, o));
    DeltasOnly(before, Events(s, o));
    UserDiff(before + sum, before);
    assert TrustScoreField in UserRecord(before);
    assert FetchCurrentState(s, o.aggregateId, UserEntity) != map[];
    assert TrustScoreField in Replayed(s, o, UserEntity);
    assert CanApply(s, o, UserEntity);
  }

  /** Such a replay never settles: every repetition is applied again, and after n of them
      the score is the baseline plus n times the deltas, whatever the bounds on scores. */
  lemma {:induction false} UserReplayNeverSettles(s: State, o: Options, n: nat)
    requires DeltaReplay(s, o)
    ensures var s' := ReplayTimes(s, o, n);
            && DeltaReplay(s', o) && s'.log == s.log && o.aggregateId in s.users && o.aggregateId in s'.users
            && s'.users[o.aggregateId].trustScore
            == s.users[o.aggregateId].trustScore + n as real * Deltas(Events(s, o))
            && AggregateReplay(s', o).1.Some? && AggregateReplay(s', o).1.value.appliedToDb
  {
    hide DeltaReplay, AggregateReplay;
    var sum := Deltas(Events(s, o));
    if n > 0 {
      var before := ReplayTimes(s, o, n - 1);
      UserReplayNeverSettles(s, o, n - 1);
      DeltaReplayStep(before, o);
      assert Events(before, o) == Events(s, o);
      assert (n - 1) as real * sum + sum == n as real * sum;
    }
    DeltaReplayStep(ReplayTimes(s, o, n), o);
  }
}
