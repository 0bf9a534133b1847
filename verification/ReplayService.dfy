/** `EventReplayService`: replay an aggregate's log, compare with the current row, and
    write the difference back when asked to. */
module ReplayService {
  import opened Wrappers
  import opened Schema
  import opened Reducers
  import opened Services
  import opened StrictProxy

  // ---- The pieces -----------------------------------------------------------------

  datatype Options = Options(
    aggregateId: Id,
    aggregateType: Option<EntityType>,
    dryRun: bool,
    upToSequence: Option<int>)

  datatype Discrepancy = Discrepancy(field: Field, replayed: Value, current: Option<Value>)

  datatype Response = Response(
    aggregateType: EntityType,
    eventsProcessed: nat,
    replayedState: Record,
    discrepancies: seq<Discrepancy>,
    appliedToDb: bool)

  /** The type of the aggregate's first event. */
  function FirstType(events: seq<Event>): Option<EntityType> {
    if events == [] then None else Some(events[0].entityType)
  }

  function FetchCurrentState(s: State, id: Id, kind: EntityType): Record {
    match kind
    case AdoptionEntity =>
      if id in s.adoptions then map[StatusField := AdoptionValue(s.adoptions[id].status)] else map[]
    case CustodyEntity =>
      if id in s.custodies then map[StatusField := CustodyValue(s.custodies[id].status)] else map[]
    case EscrowEntity =>
      if id in s.escrows then map[StatusField := EscrowValue(s.escrows[id].status)] else map[]
    case UserEntity => if id in s.users then UserRecord(s.users[id].trustScore) else map[]
    case PetEntity => map[RegisteredField := FlagValue(id in s.pets)]
  }

  function InitialStateFor(kind: EntityType, current: Record): Record {
    if kind.UserEntity? then
      UserRecord(if TrustScoreField in current && current[TrustScoreField].NumberValue?
                 then current[TrustScoreField].number else 0.0)
    else map[]
  }

  const TOLERANCE: real := 0.000000001

  function Abs(x: real): real { if x < 0.0 then -x else x }

  predicate Same(replayed: Value, current: Option<Value>) {
    || current == Some(replayed)
    || (&& replayed.NumberValue? && current.Some? && current.value.NumberValue?
        && Abs(replayed.number - current.value.number) < TOLERANCE)
  }

  function Lookup(r: Record, f: Field): Option<Value> {
    if f in r then Some(r[f]) else None
  }

  const FIELDS: seq<Field> := [StatusField, TrustScoreField, RegisteredField]

  /** The discrepancies among the given fields, in order. */
  function DiffOn(fields: seq<Field>, replayed: Record, current: Record): seq<Discrepancy> {
    if fields == [] then []
    else
      var rest, f := DiffOn(fields[..|fields| - 1], replayed, current), fields[|fields| - 1];
      if f in replayed && !Same(replayed[f], Lookup(current, f))
      then rest + [Discrepancy(f, replayed[f], Lookup(current, f))] else rest
  }

  function Diff(replayed: Record, current: Record): seq<Discrepancy> {
    DiffOn(FIELDS, replayed, current)
  }

  lemma {:induction false} DiffOnFinds(fields: seq<Field>, replayed: Record, current: Record)
    ensures DiffOn(fields, replayed, current) == []
       <==> forall f :: f in fields && f in replayed ==> Same(replayed[f], Lookup(current, f))
    decreases |fields|
  {
    if fields != [] {
      var init, last := fields[..|fields| - 1], fields[|fields| - 1];
      DiffOnFinds(init, replayed, current);
      assert fields == init + [last];
    }
  }

  /** No discrepancy means every replayed field is the current one. */
  lemma DiffFinds(replayed: Record, current: Record)
    ensures Diff(replayed, current) == [] <==> forall f :: f in replayed ==> Same(replayed[f], Lookup(current, f))
  {
    DiffOnFinds(FIELDS, replayed, current);
    forall f: Field ensures f in FIELDS {
      match f {
        case StatusField => assert FIELDS[0] == f;
        case TrustScoreField => assert FIELDS[1] == f;
        case RegisteredField => assert FIELDS[2] == f;
      }
    }
  }

  function ApplyCorrectedState(s: State, kind: EntityType, id: Id, r: Record): State {
    match kind
    case AdoptionEntity =>
      if StatusField in r && r[StatusField].AdoptionValue? && id in s.adoptions
      then s.(adoptions := s.adoptions[id := s.adoptions[id].(status := r[StatusField].adoption)]) else s
    case CustodyEntity =>
      if StatusField in r && r[StatusField].CustodyValue? && id in s.custodies
      then s.(custodies := s.custodies[id := s.custodies[id].(status := r[StatusField].custody)]) else s
    case EscrowEntity =>
      if StatusField in r && r[StatusField].EscrowValue? && id in s.escrows
      then s.(escrows := s.escrows[id := s.escrows[id].(status := r[StatusField].escrow)]) else s
    case UserEntity =>
      if TrustScoreField in r && r[TrustScoreField].NumberValue? && id in s.users
      then s.(users := s.users[id := User(r[TrustScoreField].number)]) else s
    case PetEntity => s
  }

  // ---- The call --------------------------------------------------------------------------

  function Events(s: State, o: Options): seq<Event> {
    Slice(EventsOf(s.log, o.aggregateId), o.upToSequence)
  }

  function TypeOf(s: State, o: Options): Option<EntityType> {
    if o.aggregateType.Some? then o.aggregateType else FirstType(EventsOf(s.log, o.aggregateId))
  }

  function Replayed(s: State, o: Options, kind: EntityType): Record {
    Replay(kind, InitialStateFor(kind, FetchCurrentState(s, o.aggregateId, kind)), Events(s, o))
  }

  function Discrepancies(s: State, o: Options, kind: EntityType): seq<Discrepancy> {
    Diff(Replayed(s, o, kind), FetchCurrentState(s, o.aggregateId, kind))
  }

  predicate CanApply(s: State, o: Options, kind: EntityType) {
    && !o.dryRun
    && !kind.PetEntity?
    && FetchCurrentState(s, o.aggregateId, kind) != map[]
    && Replayed(s, o, kind) != map[]
    && Discrepancies(s, o, kind) != []
  }

  /** `replayAggregate`: the new state, and the response unless there is no type to go by. */
  function AggregateReplay(s: State, o: Options): (State, Option<Response>) {
    match TypeOf(s, o)
    case None => (s, None)
    case Some(kind) =>
      var n, found := |Events(s, o)|, Discrepancies(s, o, kind);
      var applied := CanApply(s, o, kind);
      var action :=
        if applied then ReplayApplied
        else if o.dryRun then ReplayDryRun
        else if kind.PetEntity? then ReplayReadOnly
        else ReplayNoop;
      var written := if applied then ApplyCorrectedState(s, kind, o.aggregateId, Replayed(s, o, kind)) else s;
      (written.(appLog := s.appLog + [Audit(action, kind, o.aggregateId, n, |found|)]),
       Some(Response(kind, n, Replayed(s, o, kind), found, applied)))
  }

  class EventReplayService {
    const db: Database

    constructor (db: Database)
      ensures this.db == db
    {
      this.db := db;
    }

    method DiffRecords(replayed: Record, current: Record) returns (discrepancies: seq<Discrepancy>)
      ensures discrepancies == Diff(replayed, current)
    {
      discrepancies := [];
      var i := 0;
      while i < |FIELDS|
        invariant 0 <= i <= |FIELDS|
        invariant discrepancies == DiffOn(FIELDS[..i], replayed, current)
      {
        var key := FIELDS[i];
        assert FIELDS[..i + 1][..i] == FIELDS[..i];
        if key in replayed {
          var replayedVal, currentVal := replayed[key], Lookup(current, key);
          if !Same(replayedVal, currentVal) {
            discrepancies := discrepancies + [Discrepancy(key, replayedVal, currentVal)];
          }
        }
        i := i + 1;
      }
      assert FIELDS[..i] == FIELDS;
    }

    method ReplayEvents(kind: EntityType, initial: Record, events: seq<Event>) returns (state: Record)
      ensures state == Replay(kind, initial, events)
    {
      state := initial;
      for i := 0 to |events|
        invariant state == Replay(kind, initial, events[..i])
      {
        assert events[..i + 1][..i] == events[..i];
        state := Reduce(kind, state, events[i]);
      }
      assert events[..|events|] == events;
    }

    /** Writes the replayed field into the aggregate's row. */
    method Apply(kind: EntityType, id: Id, state: Record)
      modifies db
      ensures db.Snapshot() == ApplyCorrectedState(old(db.Snapshot()), kind, id, state)
    {
      match kind {
        case AdoptionEntity =>
          if StatusField in state && state[StatusField].AdoptionValue? && id in db.adoptions {
            db.adoptions := db.adoptions[id := db.adoptions[id].(status := state[StatusField].adoption)];
          }
        case CustodyEntity =>
          if StatusField in state && state[StatusField].CustodyValue? && id in db.custodies {
            db.custodies := db.custodies[id := db.custodies[id].(status := state[StatusField].custody)];
          }
        case EscrowEntity =>
          if StatusField in state && state[StatusField].EscrowValue? && id in db.escrows {
            db.escrows := db.escrows[id := db.escrows[id].(status := state[StatusField].escrow)];
          }
        case UserEntity =>
          if TrustScoreField in state && state[TrustScoreField].NumberValue? && id in db.users {
            db.users := db.users[id := User(state[TrustScoreField].number)];
          }
        case PetEntity =>
      }
    }

    method WriteAudit(entry: Audit)
      modifies db
      ensures db.Snapshot() == old(db.Snapshot()).(appLog := old(db.appLog) + [entry])
    {
      db.appLog := db.appLog + [entry];
    }

    method ReplayAggregate(o: Options) returns (response: Option<Response>)
      modifies db
      ensures db.Snapshot() == AggregateReplay(old(db.Snapshot()), o).0
      ensures response == AggregateReplay(old(db.Snapshot()), o).1
    {
      var all := EventsOf(db.log, o.aggregateId);
      var aggregateType := if o.aggregateType.Some? then o.aggregateType else FirstType(all);
      if aggregateType.None? {
        return None;
      }
      var kind := aggregateType.value;
      var slicedEvents := Slice(all, o.upToSequence);
      var currentState := FetchCurrentState(db.Snapshot(), o.aggregateId, kind);
      var replayedState := ReplayEvents(kind, InitialStateFor(kind, currentState), slicedEvents);
      var discrepancies := DiffRecords(replayedState, currentState);
      assert replayedState == Replayed(db.Snapshot(), o, kind);
      assert discrepancies == Discrepancies(db.Snapshot(), o, kind);
      var recordMissing := currentState == map[];
      var canApply := !o.dryRun && !kind.PetEntity? && !recordMissing && replayedState != map[] && discrepancies != [];
      assert canApply == CanApply(db.Snapshot(), o, kind);
      var audit := Audit(ReplayApplied, kind, o.aggregateId, |slicedEvents|, |discrepancies|);
      if canApply {
        Apply(kind, o.aggregateId, replayedState);
        WriteAudit(audit);
      } else {
        var action := if o.dryRun then ReplayDryRun else if kind.PetEntity? then ReplayReadOnly else ReplayNoop;
        WriteAudit(audit.(action := action));
      }
      return Some(Response(kind, |slicedEvents|, replayedState, discrepancies, canApply));
    }
  }

  // ---- What a call may change -----------------------------------------------------

  function ModelName(kind: EntityType): string {
    match kind
    case AdoptionEntity => "adoption"
    case CustodyEntity => "custody"
    case EscrowEntity => "escrow"
    case UserEntity => "user"
    case PetEntity => "pet"
  }

  /** The chains of property names a replay looks things up by. */
  function Lookups(kind: EntityType): set<seq<string>> {
    {["eventLog", "findFirst"], ["eventLog", "findMany"], [ModelName(kind), "findUnique"]}
  }

  /** The chains a live replay writes by: it opens a transaction and updates a row in it. */
  function Corrections(kind: EntityType): set<seq<string>> {
    {["$transaction"], [ModelName(kind), "update"]}
  }

  lemma NamesAreNoVerbs(kind: EntityType)
    ensures ModelName(kind) !in WRITE_VERBS && "eventLog" !in WRITE_VERBS
    ensures "findFirst" !in WRITE_VERBS && "findMany" !in WRITE_VERBS && "findUnique" !in WRITE_VERBS
  {
    assert forall verb :: verb in WRITE_VERBS ==> verb[0] in {'c', 'u', 'd', '$'};
    if kind.UserEntity? || kind.CustodyEntity? {
      assert forall verb :: verb in WRITE_VERBS && verb[0] in {'u', 'c'} ==> verb[1] in {'p', 'r'};
    }
  }

  /** A dry run goes through the strict proxy. Whatever client it wraps, its lookups yield
      what they yield without the proxy, and nothing a live run writes by can be called. */
  lemma DryRunReadsOnly(client: Node, kind: EntityType)
    ensures forall path :: path in Lookups(kind) ==> Follow(client, path) == FollowRaw(client, path)
    ensures forall path :: path in Corrections(kind) ==> !Follow(client, path).Bound?
  {
    NamesAreNoVerbs(kind);
    forall path | path in Lookups(kind) ensures Follow(client, path) == FollowRaw(client, path) {
      assert |path| == 2 && path[1..][1..] == [];
      ProxyBlocksExactlyWriteVerbs(client, path);
    }
    forall path | path in Corrections(kind) ensures !Follow(client, path).Bound? {
      assert !Clean(path) by {
        if |path| == 2 {
          assert path[1..][0] == "update";
        }
      }
      ProxyBlocksExactlyWriteVerbs(client, path);
    }
  }

  // ---- The call through its client ------------------------------------------------

  /** What the functions of a client do, as far as a replay asks for them. */
  datatype Query = FindFirstEvent | FindEvents | FindRow(kind: EntityType) | OpenTransaction | Unasked

  /** The chain of names leads to a function that answers the query. */
  predicate Finds(look: seq<string> -> Access, api: nat -> Query, path: seq<string>, query: Query) {
    look(path).Bound? && api(look(path).effect) == query
  }

  /** How a call ends: it throws before it has written anything, or it answers. */
  datatype Ending = Thrown | Answered(state: State, response: Option<Response>)

  /** `replayAggregate` as it goes through its client, query by query. A live one that has
      something to write opens a transaction. */
  function ReplayThrough(look: seq<string> -> Access, api: nat -> Query, s: State, o: Options): Ending {
    if !Finds(look, api, ["eventLog", "findFirst"], FindFirstEvent) then Thrown
    else
      match TypeOf(s, o)
      case None => Answered(s, None)
      case Some(kind) =>
        if !Finds(look, api, ["eventLog", "findMany"], FindEvents) then Thrown
        else if !Finds(look, api, [ModelName(kind), "findUnique"], FindRow(kind)) then Thrown
        else if CanApply(s, o, kind) && !Finds(look, api, ["$transaction"], OpenTransaction) then Thrown
        else var (s', response) := AggregateReplay(s, o); Answered(s', response)
  }

  function Direct(client: Node): seq<string> -> Access {
    path => FollowRaw(client, path)
  }

  function Proxied(client: Node): seq<string> -> Access {
    path => Follow(client, path)
  }

  /** A client that has the functions a replay asks for under their names. */
  ghost predicate IsClient(client: Node, api: nat -> Query) {
    && Finds(Direct(client), api, ["eventLog", "findFirst"], FindFirstEvent)
    && Finds(Direct(client), api, ["eventLog", "findMany"], FindEvents)
    && (forall kind :: Finds(Direct(client), api, [ModelName(kind), "findUnique"], FindRow(kind)))
    && Finds(Direct(client), api, ["$transaction"], OpenTransaction)
  }

  lemma ProxiedLookups(client: Node, api: nat -> Query, kind: EntityType, path: seq<string>, query: Query)
    requires path in Lookups(kind)
    ensures Finds(Proxied(client), api, path, query) <==> Finds(Direct(client), api, path, query)
  {
    DryRunReadsOnly(client, kind);
    assert Proxied(client)(path) == Direct(client)(path);
  }

  /** With a client that has those functions a call is the replay, whether it goes through the
      proxy, as a dry run does, or not. A dry run changes no table but the application log,
      where it leaves one row. */
  lemma CallIsReplay(client: Node, api: nat -> Query, s: State, o: Options)
    requires IsClient(client, api)
    ensures var (s', response) := AggregateReplay(s, o);
            && ReplayThrough(if o.dryRun then Proxied(client) else Direct(client), api, s, o) == Answered(s', response)
            && (o.dryRun ==>
                  && s'.(appLog := s.appLog) == s
                  && (response.Some? ==>
                        && !response.value.appliedToDb && |s'.appLog| == |s.appLog| + 1
                        && s'.appLog[|s.appLog|].action == ReplayDryRun))
  {
    if o.dryRun {
      var kind := TypeOf(s, o).GetOr(AdoptionEntity);
      ProxiedLookups(client, api, kind, ["eventLog", "findFirst"], FindFirstEvent);
      ProxiedLookups(client, api, kind, ["eventLog", "findMany"], FindEvents);
      ProxiedLookups(client, api, kind, [ModelName(kind), "findUnique"], FindRow(kind));
    }
  }

  /** Whatever the client and whatever the options, even those of a live replay: a call that
      goes through the proxy throws, or changes no table but the application log. */
  lemma ProxyStopsCorrections(client: Node, api: nat -> Query, s: State, o: Options)
    ensures match ReplayThrough(Proxied(client), api, s, o)
            case Thrown => true
            case Answered(s', response) =>
              s'.(appLog := s.appLog) == s && (response.Some? ==> !response.value.appliedToDb)
  {
    DryRunReadsOnly(client, TypeOf(s, o).GetOr(AdoptionEntity));
    assert ["$transaction"] in Corrections(TypeOf(s, o).GetOr(AdoptionEntity));
    assert !Proxied(client)(["$transaction"]).Bound?;
  }

  lemma ApplyStaysInItsTable(s: State, kind: EntityType, id: Id, r: Record)
    ensures var s' := ApplyCorrectedState(s, kind, id, r);
            && s'.log == s.log && s'.nextId == s.nextId && s'.pets == s.pets && s'.appLog == s.appLog
            && (!kind.AdoptionEntity? ==> s'.adoptions == s.adoptions)
            && (!kind.CustodyEntity? ==> s'.custodies == s.custodies)
            && (!kind.EscrowEntity? ==> s'.escrows == s.escrows)
            && (!kind.UserEntity? ==> s'.users == s.users)
  {
  }

  /** Every answered call leaves exactly one audit row, and it says REPLAY_APPLIED exactly
      when the call wrote to the aggregate's table; the event log is never written. */
  lemma OneAuditRowPerCall(s: State, o: Options)
    ensures var (s', response) := AggregateReplay(s, o);
            && s'.log == s.log
            && (response.None? ==> s' == s)
            && (response.Some? ==>
                  && |s'.appLog| == |s.appLog| + 1 && s'.appLog[..|s.appLog|] == s.appLog
                  && (s'.appLog[|s.appLog|].action == ReplayApplied <==> response.value.appliedToDb)
                  && (response.value.appliedToDb <==> s'.(appLog := s.appLog) != s))
  {
    if TypeOf(s, o).Some? {
      var kind := TypeOf(s, o).value;
      ApplyStaysInItsTable(s, kind, o.aggregateId, Replayed(s, o, kind));
      if CanApply(s, o, kind) {
        AppliedIsWritten(s, o, kind);
      }
    }
  }

  lemma InitialOfKind(kind: EntityType, current: Record)
    ensures OfKind(kind, InitialStateFor(kind, current))
  {
  }

  lemma CurrentOfKind(s: State, id: Id, kind: EntityType)
    ensures OfKind(kind, FetchCurrentState(s, id, kind))
  {
  }

  /** After an applied replay the row is what was replayed. */
  lemma AppliedIsWritten(s: State, o: Options, kind: EntityType)
    requires CanApply(s, o, kind)
    ensures var r := Replayed(s, o, kind);
            var s' := ApplyCorrectedState(s, kind, o.aggregateId, r);
            FetchCurrentState(s', o.aggregateId, kind) == r && s' != s
  {
    var current := FetchCurrentState(s, o.aggregateId, kind);
    var r := Replayed(s, o, kind);
    InitialOfKind(kind, current);
    CurrentOfKind(s, o.aggregateId, kind);
    ReplayOfKind(kind, InitialStateFor(kind, current), Events(s, o));
    DiffFinds(r, current);
  }
}
