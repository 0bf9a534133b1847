/** The reducers of the event replay service, and what folding events with them means. */
module Reducers {
  import opened Wrappers
  import opened Schema

  // ---- Replayed records --------------------------------------------------------

  /** The fields reducers and current rows speak about. */
  datatype Field = StatusField | TrustScoreField | RegisteredField

  datatype Value =
    | AdoptionValue(adoption: AdoptionStatus)
    | CustodyValue(custody: CustodyStatus)
    | EscrowValue(escrow: EscrowStatus)
    | NumberValue(number: real)
    | FlagValue(flag: bool)

  type Record = map<Field, Value>

  /** The payload's `trustScore`, where that is a number. */
  function AbsoluteScore(p: Payload): Option<real> {
    match p
    case ScoreReport(trustScore, _) => trustScore
    case _ => None
  }

  /** The payload's `delta`, where that is a number. */
  function ScoreDelta(p: Payload): Option<real> {
    match p
    case ScoreReport(_, delta) => delta
    case ScoreChange(_, _, change) => Some(change)
    case _ => None
  }

  function AdoptionReducer(state: Record, e: Event): Record {
    match e.eventType
    case AdoptionRequested => state[StatusField := AdoptionValue(AdoptionStatus.Requested)]
    case AdoptionApproved => state[StatusField := AdoptionValue(AdoptionStatus.Approved)]
    case AdoptionCompleted => state[StatusField := AdoptionValue(AdoptionStatus.Completed)]
    case _ => state
  }

  function CustodyReducer(state: Record, e: Event): Record {
    match e.eventType
    case CustodyStarted => state[StatusField := CustodyValue(CustodyStatus.Pending)]
    case CustodyReturned => state[StatusField := CustodyValue(CustodyStatus.Returned)]
    case CustodyViolation => state[StatusField := CustodyValue(CustodyStatus.Violation)]
    case CustodyCancelled => state[StatusField := CustodyValue(CustodyStatus.Cancelled)]
    case _ => state
  }

  function EscrowReducer(state: Record, e: Event): Record {
    match e.eventType
    case EscrowCreated => state[StatusField := EscrowValue(EscrowStatus.Created)]
    case EscrowWasFunded => state[StatusField := EscrowValue(EscrowStatus.Funded)]
    case EscrowReleased => state[StatusField := EscrowValue(EscrowStatus.Released)]
    case EscrowRefunded => state[StatusField := EscrowValue(EscrowStatus.Refunded)]
    case _ => state
  }

  function UserReducer(state: Record, e: Event): Record {
    if !e.eventType.TrustScoreUpdated? then state
    else
      match AbsoluteScore(e.payload)
      case Some(score) => state[TrustScoreField := NumberValue(score)]
      case None =>
        match ScoreDelta(e.payload)
        case Some(delta) =>
          if TrustScoreField in state && state[TrustScoreField].NumberValue?
          then state[TrustScoreField := NumberValue(state[TrustScoreField].number + delta)]
          else state
        case None => state
  }

  function PetReducer(state: Record, e: Event): Record {
    if e.eventType.PetRegistered? then state[RegisteredField := FlagValue(true)] else state
  }

  function Reduce(kind: EntityType, state: Record, e: Event): Record {
    match kind
    case AdoptionEntity => AdoptionReducer(state, e)
    case CustodyEntity => CustodyReducer(state, e)
    case EscrowEntity => EscrowReducer(state, e)
    case UserEntity => UserReducer(state, e)
    case PetEntity => PetReducer(state, e)
  }

  /** `reduce` over the events, oldest first. */
  function Replay(kind: EntityType, initial: Record, events: seq<Event>): Record {
    if events == [] then initial
    else Reduce(kind, Replay(kind, initial, events[..|events| - 1]), events[|events| - 1])
  }

  // ---- Prefixes ------------------------------------------------------------------

  /** JavaScript's `slice(0, n)`: a negative n counts from the end, one past the end is the end. */
  function Slice(events: seq<Event>, upTo: Option<int>): (r: seq<Event>)
    ensures r <= events
    ensures upTo.None? ==> r == events
    ensures upTo.Some? && 0 <= upTo.value ==> |r| == (if upTo.value <= |events| then upTo.value else |events|)
    ensures upTo.Some? && upTo.value < 0 ==>
              |r| == (if -upTo.value <= |events| then |events| + upTo.value else 0)
  {
    match upTo
    case None => events
    case Some(n) =>
      if n >= |events| then events
      else if n >= 0 then events[..n]
      else if |events| + n > 0 then events[..|events| + n]
      else []
  }

  /** Prefix replay: k + 1 events take one reducer step from k events, and asking for as
      many events as there are, or more, replays them all. */
  lemma PrefixReplay(kind: EntityType, initial: Record, events: seq<Event>, k: nat)
    ensures k < |events| ==>
              Replay(kind, initial, Slice(events, Some(k + 1)))
              == Reduce(kind, Replay(kind, initial, Slice(events, Some(k))), events[k])
    ensures k >= |events| ==> Replay(kind, initial, Slice(events, Some(k))) == Replay(kind, initial, events)
  {
    if k < |events| {
      assert Slice(events, Some(k + 1)) == events[..k + 1];
      assert events[..k + 1][..k] == events[..k];
    }
  }

  // ---- Fields stay with their kind -------------------------------------------------

  /** A record in which only the kind's own field may appear, with a value of its sort. */
  predicate OfKind(kind: EntityType, r: Record) {
    forall f :: f in r ==>
      match kind
      case AdoptionEntity => f.StatusField? && r[f].AdoptionValue?
      case CustodyEntity => f.StatusField? && r[f].CustodyValue?
      case EscrowEntity => f.StatusField? && r[f].EscrowValue?
      case UserEntity => f.TrustScoreField? && r[f].NumberValue?
      case PetEntity => f.RegisteredField? && r[f].FlagValue?
  }

  lemma {:induction false} ReplayOfKind(kind: EntityType, initial: Record, events: seq<Event>)
    requires OfKind(kind, initial)
    ensures OfKind(kind, Replay(kind, initial, events))
    ensures initial.Keys <= Replay(kind, initial, events).Keys
    decreases |events|
  {
    if events != [] {
      ReplayOfKind(kind, initial, events[..|events| - 1]);
    }
  }

  // ---- User scores in closed form -----------------------------------------------------

  predicate Absolute(e: Event) {
    e.eventType.TrustScoreUpdated? && AbsoluteScore(e.payload).Some?
  }

  /** What an event adds when no absolute score stands in its way. */
  function DeltaOf(e: Event): real {
    if e.eventType.TrustScoreUpdated? && AbsoluteScore(e.payload).None? then ScoreDelta(e.payload).GetOr(0.0) else 0.0
  }

  function Deltas(events: seq<Event>): real {
    if events == [] then 0.0 else Deltas(events[..|events| - 1]) + DeltaOf(events[|events| - 1])
  }

  predicate HasAbsolute(events: seq<Event>) {
    exists k :: 0 <= k < |events| && Absolute(events[k])
  }

  /** Position of the last absolute score. */
  function LastAbsolute(events: seq<Event>): (k: nat)
    requires HasAbsolute(events)
    ensures k < |events| && Absolute(events[k])
    ensures forall j :: k < j < |events| ==> !Absolute(events[j])
  {
    if Absolute(events[|events| - 1]) then |events| - 1
    else
      assert HasAbsolute(events[..|events| - 1]) by {
        var k :| 0 <= k < |events| && Absolute(events[k]);
        assert Absolute(events[..|events| - 1][k]);
      }
      LastAbsolute(events[..|events| - 1])
  }

  function UserRecord(score: real): Record {
    map[TrustScoreField := NumberValue(score)]
  }

  /** Where no event is absolute, a user's replay is the baseline plus all deltas. */
  lemma {:induction false} DeltasOnly(baseline: real, events: seq<Event>)
    requires !HasAbsolute(events)
    ensures Replay(UserEntity, UserRecord(baseline), events) == UserRecord(baseline + Deltas(events))
    decreases |events|
  {
    if events != [] {
      var init := events[..|events| - 1];
      assert !HasAbsolute(init) by {
        forall k | 0 <= k < |init| ensures !Absolute(init[k]) {
          assert init[k] == events[k];
        }
      }
      assert !Absolute(events[|events| - 1]);
      DeltasOnly(baseline, init);
    }
  }

  lemma {:induction false} ReplaySplit(kind: EntityType, initial: Record, first: seq<Event>, second: seq<Event>)
    ensures Replay(kind, initial, first + second) == Replay(kind, Replay(kind, initial, first), second)
    decreases |second|
  {
    if second == [] {
      assert first + second == first;
    } else {
      var init := second[..|second| - 1];
      ReplaySplit(kind, initial, first, init);
      assert (first + second)[..|first + second| - 1] == first + init;
    }
  }

  lemma {:induction false} UserReplayKeepsScore(baseline: real, events: seq<Event>)
    ensures exists score :: Replay(UserEntity, UserRecord(baseline), events) == UserRecord(score)
    decreases |events|
  {
    if events == [] {
      assert Replay(UserEntity, UserRecord(baseline), events) == UserRecord(baseline);
    } else {
      UserReplayKeepsScore(baseline, events[..|events| - 1]);
      var score :| Replay(UserEntity, UserRecord(baseline), events[..|events| - 1]) == UserRecord(score);
      UserStep(score, events[|events| - 1]);
      var score' :| UserReducer(UserRecord(score), events[|events| - 1]) == UserRecord(score');
      assert Replay(UserEntity, UserRecord(baseline), events) == UserRecord(score');
    }
  }

  lemma UserStep(score: real, e: Event)
    ensures UserReducer(UserRecord(score), e)
         == UserRecord(if Absolute(e) then AbsoluteScore(e.payload).value else score + DeltaOf(e))
  {
  }

  /** A user's replay in closed form: the last absolute score plus the deltas after it, or
      the baseline plus all deltas where there is none. */
  lemma UserClosedForm(baseline: real, events: seq<Event>)
    ensures Replay(UserEntity, UserRecord(baseline), events)
         == if HasAbsolute(events)
            then var k := LastAbsolute(events);
                 UserRecord(AbsoluteScore(events[k].payload).value + Deltas(events[k + 1..]))
            else UserRecord(baseline + Deltas(events))
  {
    if HasAbsolute(events) {
      NoneAfterLast(events);
      ReplayFromAbsolute(baseline, events, LastAbsolute(events));
    } else {
      DeltasOnly(baseline, events);
    }
  }

  lemma ReplayFromAbsolute(baseline: real, events: seq<Event>, k: nat)
    requires k < |events| && Absolute(events[k]) && !HasAbsolute(events[k + 1..])
    ensures Replay(UserEntity, UserRecord(baseline), events)
         == UserRecord(AbsoluteScore(events[k].payload).value + Deltas(events[k + 1..]))
  {
    assert events == events[..k + 1] + events[k + 1..];
    ReplaySplit(UserEntity, UserRecord(baseline), events[..k + 1], events[k + 1..]);
    ReplayToAbsolute(baseline, events, k);
    DeltasOnly(AbsoluteScore(events[k].payload).value, events[k + 1..]);
  }

  /** An absolute score forgets everything before it. */
  lemma ReplayToAbsolute(baseline: real, events: seq<Event>, k: nat)
    requires k < |events| && Absolute(events[k])
    ensures Replay(UserEntity, UserRecord(baseline), events[..k + 1])
         == UserRecord(AbsoluteScore(events[k].payload).value)
  {
    UserReplayKeepsScore(baseline, events[..k]);
    var score :| Replay(UserEntity, UserRecord(baseline), events[..k]) == UserRecord(score);
    assert events[..k + 1][..k] == events[..k];
    UserStep(score, events[k]);
  }

  lemma NoneAfterLast(events: seq<Event>)
    requires HasAbsolute(events)
    ensures !HasAbsolute(events[LastAbsolute(events) + 1..])
  {
    var k := LastAbsolute(events);
    var after := events[k + 1..];
    forall j | 0 <= j < |after| ensures !Absolute(after[j]) {
      assert after[j] == events[k + 1 + j];
    }
  }

  // ---- User scores, payload by payload ---------------------------------------------------

  /** A score event whose payload holds a number under `trustScore`. */
  predicate Reports(e: Event) {
    e.eventType == TrustScoreUpdated && e.payload.ScoreReport? && e.payload.trustScore.Some?
  }

  /** What the `delta` keys of the score events add up to, events that report a score aside. */
  function Changes(events: seq<Event>): real {
    if events == [] then 0.0
    else
      var before, last := Changes(events[..|events| - 1]), events[|events| - 1];
      if last.eventType != TrustScoreUpdated then before
      else
        match last.payload
        case ScoreReport(None, Some(delta)) => before + delta
        case ScoreChange(_, _, delta) => before + delta
        case _ => before
  }

  lemma {:induction false} DeltasAreChanges(events: seq<Event>)
    ensures Deltas(events) == Changes(events)
    decreases |events|
  {
    if events != [] {
      DeltasAreChanges(events[..|events| - 1]);
    }
  }

  /** The last event that reports a score decides, and the changes after it are added. */
  lemma ReportedScoreReplays(baseline: real, events: seq<Event>, k: nat, score: real)
    requires k < |events| && events[k].eventType == TrustScoreUpdated
    requires events[k].payload.ScoreReport? && events[k].payload.trustScore == Some(score)
    requires forall j :: k < j < |events| ==> !Reports(events[j])
    ensures Replay(UserEntity, UserRecord(baseline), events) == UserRecord(score + Changes(events[k + 1..]))
  {
    assert Absolute(events[k]);
    var after := events[k + 1..];
    forall j | 0 <= j < |after| ensures !Absolute(after[j]) {
      assert after[j] == events[k + 1 + j];
      assert !Reports(events[k + 1 + j]);
    }
    ReplayFromAbsolute(baseline, events, k);
    DeltasAreChanges(events[k + 1..]);
  }

  /** Without such an event, all changes are added to the baseline. */
  lemma UnreportedScoreReplays(baseline: real, events: seq<Event>)
    requires forall j :: 0 <= j < |events| ==> !Reports(events[j])
    ensures Replay(UserEntity, UserRecord(baseline), events) == UserRecord(baseline + Changes(events))
  {
    forall j | 0 <= j < |events| ensures !Absolute(events[j]) {
      assert !Reports(events[j]);
    }
    DeltasOnly(baseline, events);
    DeltasAreChanges(events);
  }

  // ---- Statuses, event type by event type -----------------------------------------------

  /** The status an event names for an aggregate of its kind. */
  function Named(kind: EntityType, t: EventType): Option<Value> {
    match (kind, t)
    case (AdoptionEntity, AdoptionRequested) => Some(AdoptionValue(AdoptionStatus.Requested))
    case (AdoptionEntity, AdoptionApproved) => Some(AdoptionValue(AdoptionStatus.Approved))
    case (AdoptionEntity, AdoptionCompleted) => Some(AdoptionValue(AdoptionStatus.Completed))
    case (CustodyEntity, CustodyStarted) => Some(CustodyValue(CustodyStatus.Pending))
    case (CustodyEntity, CustodyReturned) => Some(CustodyValue(CustodyStatus.Returned))
    case (CustodyEntity, CustodyViolation) => Some(CustodyValue(CustodyStatus.Violation))
    case (CustodyEntity, CustodyCancelled) => Some(CustodyValue(CustodyStatus.Cancelled))
    case (EscrowEntity, EscrowCreated) => Some(EscrowValue(EscrowStatus.Created))
    case (EscrowEntity, EscrowWasFunded) => Some(EscrowValue(EscrowStatus.Funded))
    case (EscrowEntity, EscrowReleased) => Some(EscrowValue(EscrowStatus.Released))
    case (EscrowEntity, EscrowRefunded) => Some(EscrowValue(EscrowStatus.Refunded))
    case _ => None
  }

  /** The record of the last event that names a status; the empty one where none does. */
  ghost predicate LastNames(kind: EntityType, events: seq<Event>, r: Record) {
    || (r == map[] && forall j :: 0 <= j < |events| ==> Named(kind, events[j].eventType).None?)
    || exists k :: 0 <= k < |events| && Named(kind, events[k].eventType).Some?
                   && r == map[StatusField := Named(kind, events[k].eventType).value]
                   && forall j :: k < j < |events| ==> Named(kind, events[j].eventType).None?
  }

  lemma LastNamesStays(kind: EntityType, events: seq<Event>, e: Event, r: Record)
    requires LastNames(kind, events, r) && Named(kind, e.eventType).None?
    ensures LastNames(kind, events + [e], r)
  {
    hide Named;
    var longer := events + [e];
    assert forall j :: 0 <= j < |events| ==> longer[j] == events[j];
    if k :| 0 <= k < |events| && Named(kind, events[k].eventType).Some?
            && r == map[StatusField := Named(kind, events[k].eventType).value]
            && forall j :: k < j < |events| ==> Named(kind, events[j].eventType).None? {
      assert Named(kind, longer[k].eventType).Some?;
    }
  }

  lemma LastNamesNew(kind: EntityType, events: seq<Event>, e: Event)
    requires Named(kind, e.eventType).Some?
    ensures LastNames(kind, events + [e], map[StatusField := Named(kind, e.eventType).value])
  {
    hide Named;
    assert (events + [e])[|events|] == e;
  }

  /** What an adoption, a custody or an escrow replays to. */
  lemma {:induction false} LastNamedReplays(kind: EntityType, events: seq<Event>)
    requires !kind.UserEntity? && !kind.PetEntity?
    ensures LastNames(kind, events, Replay(kind, map[], events))
    ensures Replay(kind, map[], events).Keys <= {StatusField}
    decreases |events|
  {
    hide Named, LastNames, Reduce;
    if events == [] {
      NothingNamed(kind);
    } else {
      var init, e := events[..|events| - 1], events[|events| - 1];
      LastNamedReplays(kind, init);
      NamedStep(kind, Replay(kind, map[], init), e);
      assert events == init + [e];
      if Named(kind, e.eventType).Some? {
        LastNamesNew(kind, init, e);
      } else {
        LastNamesStays(kind, init, e, Replay(kind, map[], init));
      }
    }
  }

  lemma NothingNamed(kind: EntityType)
    ensures LastNames(kind, [], map[])
  {
  }

  lemma NamedStep(kind: EntityType, r: Record, e: Event)
    requires !kind.UserEntity? && !kind.PetEntity? && r.Keys <= {StatusField}
    ensures Reduce(kind, r, e)
         == match Named(kind, e.eventType)
            case None => r
            case Some(value) => map[StatusField := value]
  {
  }

  /** A pet is registered once an event says so. */
  lemma {:induction false} RegistrationReplays(events: seq<Event>)
    ensures Replay(PetEntity, map[], events)
         == if exists k :: 0 <= k < |events| && events[k].eventType.PetRegistered?
            then map[RegisteredField := FlagValue(true)] else map[]
    decreases |events|
  {
    if events != [] {
      var n := |events| - 1;
      RegistrationReplays(events[..n]);
      assert forall j :: 0 <= j < n ==> events[..n][j] == events[j];
    }
  }

  // ---- Replaying by types -----------------------------------------------------------

  /** What replaying event types alone would give; only a user's replay reads payloads. */
  function ReplayTypes(kind: EntityType, types: seq<EventType>): Record {
    if types == [] then map[]
    else Reduce(kind, ReplayTypes(kind, types[..|types| - 1]),
                Event(kind, 0, types[|types| - 1], None, OtherPayload))
  }

  lemma TypesSnoc(kind: EntityType, types: seq<EventType>, t: EventType)
    ensures ReplayTypes(kind, types + [t])
         == Reduce(kind, ReplayTypes(kind, types), Event(kind, 0, t, None, OtherPayload))
  {
    assert (types + [t])[..|types|] == types;
  }

  lemma ReduceByType(kind: EntityType, state: Record, e: Event)
    requires !kind.UserEntity?
    ensures Reduce(kind, state, e) == Reduce(kind, state, Event(kind, 0, e.eventType, None, OtherPayload))
  {
  }

  function TypesOf(events: seq<Event>): (types: seq<EventType>)
    ensures |types| == |events|
  {
    seq(|events|, k requires 0 <= k < |events| => events[k].eventType)
  }

  /** Other than a user's, a replay from scratch looks at nothing but the events' types. */
  lemma {:induction false} ReplayByTypes(kind: EntityType, events: seq<Event>)
    requires !kind.UserEntity?
    ensures Replay(kind, map[], events) == ReplayTypes(kind, TypesOf(events))
    decreases |events|
  {
    if events != [] {
      var init, last := events[..|events| - 1], events[|events| - 1];
      ReplayByTypes(kind, init);
      assert TypesOf(events)[..|init|] == TypesOf(init);
      ReduceByType(kind, ReplayTypes(kind, TypesOf(init)), last);
    }
  }
}
