/** The other two ways the repository folds an adoption's events: the merging replay of
    `EventsService`, and the rich stand-alone `adoptionReducer`. */
module Lifecycle {
  import opened Wrappers
  import opened Schema
  import Reducers

  datatype Json =
    | JsonNull
    | JsonBool(flag: bool)
    | JsonNumber(number: real)
    | JsonString(text: string)
    | JsonArray(items: seq<Json>)
    | JsonObject(fields: map<string, Json>)

  type Object = map<string, Json>

  function Lookup(o: Object, key: string): Option<Json> {
    if key in o then Some(o[key]) else None
  }

  // ---- EventsService: payloads merged into one state --------------------------------

  datatype LedgerEvent = LedgerEvent(eventType: string, payload: Json)

  /** Arrays, null and scalars count as no payload at all. */
  function AsObject(value: Json): Object {
    if value.JsonObject? then value.fields else map[]
  }

  /** The status each kind of event stands for; "" where it stands for none. `show` is
      JavaScript's `String(...)`, which a changed pet status goes through. */
  function MappedStatus(kind: EntityType, e: LedgerEvent, show: Json -> string): string {
    match kind
    case AdoptionEntity =>
      if e.eventType == "ADOPTION_REQUESTED" then "PENDING"
      else if e.eventType == "ADOPTION_APPROVED" then "APPROVED"
      else if e.eventType == "ADOPTION_REJECTED" then "REJECTED"
      else if e.eventType == "ADOPTION_COMPLETED" then "COMPLETED"
      else if e.eventType == "ADOPTION_CANCELLED" then "CANCELLED"
      else ""
    case PetEntity =>
      if e.eventType == "PET_CREATED" then "AVAILABLE"
      else if e.eventType == "PET_STATUS_CHANGED" then
        (match Lookup(AsObject(e.payload), "status")
         case None => ""
         case Some(value) => if value.JsonNull? then "" else show(value))
      else if e.eventType == "PET_ADOPTED" then "ADOPTED"
      else if e.eventType == "PET_RETURNED" then "AVAILABLE"
      else ""
    case CustodyEntity =>
      if e.eventType == "CUSTODY_REQUESTED" then "PENDING"
      else if e.eventType == "CUSTODY_APPROVED" then "APPROVED"
      else if e.eventType == "CUSTODY_STARTED" then "ACTIVE"
      else if e.eventType == "CUSTODY_COMPLETED" then "COMPLETED"
      else if e.eventType == "CUSTODY_CANCELLED" then "CANCELLED"
      else ""
    case EscrowEntity =>
      if e.eventType == "ESCROW_CREATED" then "CREATED"
      else if e.eventType == "ESCROW_FUNDED" then "FUNDED"
      else if e.eventType == "ESCROW_RELEASED" then "RELEASED"
      else if e.eventType == "ESCROW_REFUNDED" then "REFUNDED"
      else if e.eventType == "ESCROW_CANCELLED" then "CANCELLED"
      else ""
    case UserEntity =>
      if e.eventType == "USER_REGISTERED" then "ACTIVE"
      else if e.eventType == "USER_ACTIVATED" then "ACTIVE"
      else if e.eventType == "USER_DEACTIVATED" then "INACTIVE"
      else ""
  }

  function ReduceLifecycleState(kind: EntityType, state: Object, e: LedgerEvent, show: Json -> string): Object {
    var status := MappedStatus(kind, e, show);
    state + AsObject(e.payload) + (if status != "" then map["status" := JsonString(status)] else map[])
  }

  function ReplayAggregate(kind: EntityType, events: seq<LedgerEvent>, initial: Object, show: Json -> string): Object {
    if events == [] then initial
    else
      ReduceLifecycleState(kind, ReplayAggregate(kind, events[..|events| - 1], initial, show),
                           events[|events| - 1], show)
  }

  /** What one event has to say about a key: a mapped status speaks before the payload. */
  function Says(kind: EntityType, e: LedgerEvent, key: string, show: Json -> string): Option<Json> {
    if key == "status" && MappedStatus(kind, e, show) != "" then Some(JsonString(MappedStatus(kind, e, show)))
    else Lookup(AsObject(e.payload), key)
  }

  /** The last thing any event says about a key. */
  function LastWord(kind: EntityType, events: seq<LedgerEvent>, key: string, show: Json -> string): Option<Json> {
    if events == [] then None
    else
      var said := Says(kind, events[|events| - 1], key, show);
      if said.Some? then said else LastWord(kind, events[..|events| - 1], key, show)
  }

  lemma {:induction false} LastWordIs(kind: EntityType, events: seq<LedgerEvent>, key: string,
                                      show: Json -> string, k: nat)
    requires k < |events| && Says(kind, events[k], key, show).Some?
    requires forall j :: k < j < |events| ==> Says(kind, events[j], key, show).None?
    ensures LastWord(kind, events, key, show) == Says(kind, events[k], key, show)
    decreases |events|
  {
    var n := |events| - 1;
    if k < n {
      assert Says(kind, events[n], key, show).None?;
      assert events[..n][k] == events[k];
      LastWordIs(kind, events[..n], key, show, k);
    }
  }

  lemma MergeStep(kind: EntityType, state: Object, e: LedgerEvent, show: Json -> string, key: string)
    ensures Lookup(ReduceLifecycleState(kind, state, e, show), key)
         == (if Says(kind, e, key, show).Some? then Says(kind, e, key, show) else Lookup(state, key))
  {
  }

  /** The merged state in closed form: every key has the value of the last event that says
      something about it, or its initial value where none does. */
  lemma {:induction false} MergeKeepsLastWord(kind: EntityType, events: seq<LedgerEvent>, initial: Object,
                                              show: Json -> string, key: string)
    ensures Lookup(ReplayAggregate(kind, events, initial, show), key)
         == (if LastWord(kind, events, key, show).Some? then LastWord(kind, events, key, show)
             else Lookup(initial, key))
    decreases |events|
  {
    if events != [] {
      var n := |events| - 1;
      MergeKeepsLastWord(kind, events[..n], initial, show, key);
      MergeStep(kind, ReplayAggregate(kind, events[..n], initial, show), events[n], show, key);
    }
  }

  // ---- The merged state, payload by payload ---------------------------------------------

  /** The payload is an object with the key. */
  predicate Carries(e: LedgerEvent, key: string) {
    e.payload.JsonObject? && key in e.payload.fields
  }

  lemma SaysWhatItCarries(kind: EntityType, e: LedgerEvent, key: string, show: Json -> string)
    requires key != "status"
    ensures Says(kind, e, key, show) == if Carries(e, key) then Some(e.payload.fields[key]) else None
  {
  }

  /** A key other than the status has its value in the last object payload that carries it. */
  lemma LastPayloadMerges(kind: EntityType, events: seq<LedgerEvent>, initial: Object, show: Json -> string,
                          key: string, k: nat, fields: Object)
    requires key != "status" && k < |events| && events[k].payload == JsonObject(fields) && key in fields
    requires forall j :: k < j < |events| ==> !Carries(events[j], key)
    ensures Lookup(ReplayAggregate(kind, events, initial, show), key) == Some(fields[key])
  {
    hide Says;
    SaysWhatItCarries(kind, events[k], key, show);
    forall j | k < j < |events| ensures Says(kind, events[j], key, show).None? {
      SaysWhatItCarries(kind, events[j], key, show);
    }
    LastWordIs(kind, events, key, show, k);
    MergeKeepsLastWord(kind, events, initial, show, key);
  }

  /** A key that no object payload carries keeps its initial value. */
  lemma {:induction false} UncarriedKeyStays(kind: EntityType, events: seq<LedgerEvent>, initial: Object,
                                             show: Json -> string, key: string)
    requires key != "status" && forall j :: 0 <= j < |events| ==> !Carries(events[j], key)
    ensures Lookup(ReplayAggregate(kind, events, initial, show), key) == Lookup(initial, key)
    decreases |events|
  {
    hide Says, Carries, Lookup, ReduceLifecycleState;
    if events != [] {
      var n := |events| - 1;
      assert forall j :: 0 <= j < n ==> events[..n][j] == events[j];
      UncarriedKeyStays(kind, events[..n], initial, show, key);
      SaysWhatItCarries(kind, events[n], key, show);
      MergeStep(kind, ReplayAggregate(kind, events[..n], initial, show), events[n], show, key);
    }
  }

  /** The statuses that event types stand for by themselves. */
  function StatusNames(kind: EntityType): map<string, string> {
    match kind
    case AdoptionEntity =>
      map["ADOPTION_REQUESTED" := "PENDING", "ADOPTION_APPROVED" := "APPROVED", "ADOPTION_REJECTED" := "REJECTED",
          "ADOPTION_COMPLETED" := "COMPLETED", "ADOPTION_CANCELLED" := "CANCELLED"]
    case PetEntity => map["PET_CREATED" := "AVAILABLE", "PET_ADOPTED" := "ADOPTED", "PET_RETURNED" := "AVAILABLE"]
    case CustodyEntity =>
      map["CUSTODY_REQUESTED" := "PENDING", "CUSTODY_APPROVED" := "APPROVED", "CUSTODY_STARTED" := "ACTIVE",
          "CUSTODY_COMPLETED" := "COMPLETED", "CUSTODY_CANCELLED" := "CANCELLED"]
    case EscrowEntity =>
      map["ESCROW_CREATED" := "CREATED", "ESCROW_FUNDED" := "FUNDED", "ESCROW_RELEASED" := "RELEASED",
          "ESCROW_REFUNDED" := "REFUNDED", "ESCROW_CANCELLED" := "CANCELLED"]
    case UserEntity =>
      map["USER_REGISTERED" := "ACTIVE", "USER_ACTIVATED" := "ACTIVE", "USER_DEACTIVATED" := "INACTIVE"]
  }

  /** A changed pet status other than null speaks through its text. */
  predicate ShowsStatus(kind: EntityType, e: LedgerEvent, show: Json -> string) {
    && kind.PetEntity? && e.eventType == "PET_STATUS_CHANGED" && Carries(e, "status")
    && !e.payload.fields["status"].JsonNull? && show(e.payload.fields["status"]) != ""
  }

  /** What the status of an event is looked up as. */
  predicate NamedAsListed(kind: EntityType, e: LedgerEvent, show: Json -> string) {
    if e.eventType in StatusNames(kind) then
      MappedStatus(kind, e, show) == StatusNames(kind)[e.eventType] && StatusNames(kind)[e.eventType] != ""
    else MappedStatus(kind, e, show) == if ShowsStatus(kind, e, show) then show(e.payload.fields["status"]) else ""
  }

  lemma AdoptionNames(e: LedgerEvent, show: Json -> string)
    ensures NamedAsListed(AdoptionEntity, e, show)
  {
  }

  lemma PetNames(e: LedgerEvent, show: Json -> string)
    ensures NamedAsListed(PetEntity, e, show)
  {
  }

  lemma CustodyNames(e: LedgerEvent, show: Json -> string)
    ensures NamedAsListed(CustodyEntity, e, show)
  {
  }

  lemma EscrowNames(e: LedgerEvent, show: Json -> string)
    ensures NamedAsListed(EscrowEntity, e, show)
  {
  }

  lemma UserNames(e: LedgerEvent, show: Json -> string)
    ensures NamedAsListed(UserEntity, e, show)
  {
  }

  /** The status after an event: what its type stands for, whatever its payload says; else the
      text of a changed pet status; else what its payload carries; else the status before. */
  lemma StatusAfter(kind: EntityType, events: seq<LedgerEvent>, initial: Object, show: Json -> string)
    requires events != []
    ensures var e := events[|events| - 1];
            Lookup(ReplayAggregate(kind, events, initial, show), "status")
            == if e.eventType in StatusNames(kind) then Some(JsonString(StatusNames(kind)[e.eventType]))
               else if ShowsStatus(kind, e, show) then Some(JsonString(show(e.payload.fields["status"])))
               else if Carries(e, "status") then Some(e.payload.fields["status"])
               else Lookup(ReplayAggregate(kind, events[..|events| - 1], initial, show), "status")
  {
    hide MappedStatus, StatusNames;
    var n := |events| - 1;
    match kind {
      case AdoptionEntity => AdoptionNames(events[n], show);
      case PetEntity => PetNames(events[n], show);
      case CustodyEntity => CustodyNames(events[n], show);
      case EscrowEntity => EscrowNames(events[n], show);
      case UserEntity => UserNames(events[n], show);
    }
    MergeStep(kind, ReplayAggregate(kind, events[..n], initial, show), events[n], show, "status");
  }

  // ---- The rich adoption reducer ------------------------------------------------------

  datatype AdoptionState = AdoptionState(
    status: string,
    adopterId: string,
    petId: string,
    approvedBy: Option<string>,
    escrowAccountId: Option<string>,
    escrowTxHash: Option<string>,
    completedAt: Option<string>)

  datatype AdoptionEvent = AdoptionEvent(
    eventType: string,
    actorId: Option<string>,
    txHash: Option<string>,
    createdAt: Option<string>,
    payload: Json)

  /** The first of the keys that holds a string. */
  function GetString(payload: Object, keys: seq<string>): Option<string> {
    if keys == [] then None
    else if keys[0] in payload && payload[keys[0]].JsonString? then Some(payload[keys[0]].text)
    else GetString(payload, keys[1..])
  }

  predicate HoldsString(payload: Object, key: string) {
    key in payload && payload[key].JsonString?
  }

  /** Keys are tried in order. */
  lemma {:induction false} FirstStringIsTaken(payload: Object, keys: seq<string>, k: nat)
    requires k <= |keys| && forall j :: 0 <= j < k ==> !HoldsString(payload, keys[j])
    ensures k == |keys| ==> GetString(payload, keys) == None
    ensures k < |keys| && HoldsString(payload, keys[k]) ==> GetString(payload, keys) == Some(payload[keys[k]].text)
    decreases |keys|
  {
    if k > 0 {
      assert !HoldsString(payload, keys[0]);
      assert forall j :: 0 <= j < k - 1 ==> keys[1..][j] == keys[j + 1];
      FirstStringIsTaken(payload, keys[1..], k - 1);
    }
  }

  /** `a ?? b`. */
  function OrElse(a: Option<string>, b: Option<string>): Option<string> {
    if a.Some? then a else b
  }

  function AdoptionReducer(state: AdoptionState, e: AdoptionEvent): AdoptionState {
    var payload := AsObject(e.payload);
    if e.eventType == "ADOPTION_REQUESTED" then
      state.(status := "REQUESTED",
             adopterId := GetString(payload, ["adopterId", "userId"]).GetOr(state.adopterId),
             petId := GetString(payload, ["petId"]).GetOr(state.petId))
    else if e.eventType == "ADOPTION_APPROVED" then
      state.(status := "APPROVED",
             approvedBy := OrElse(OrElse(GetString(payload, ["approvedBy", "adminId", "actorId"]), e.actorId),
                                  state.approvedBy))
    else if e.eventType == "ADOPTION_REJECTED" then state.(status := "REJECTED")
    else if e.eventType == "ADOPTION_ESCROW_CREATED" then
      state.(status := "ESCROW_CREATED",
             escrowAccountId := OrElse(GetString(payload, ["escrowAccountId", "accountId"]), state.escrowAccountId))
    else if e.eventType == "ADOPTION_ESCROW_FUNDED" then
      state.(status := "ESCROW_FUNDED",
             escrowTxHash := OrElse(OrElse(GetString(payload, ["escrowTxHash", "txHash"]), e.txHash),
                                    state.escrowTxHash))
    else if e.eventType == "ADOPTION_COMPLETED" then
      state.(status := "COMPLETED",
             completedAt := OrElse(OrElse(GetString(payload, ["completedAt", "timestamp"]), e.createdAt),
                                   state.completedAt))
    else state
  }

  function Rebuild(initial: AdoptionState, events: seq<AdoptionEvent>): AdoptionState {
    if events == [] then initial
    else AdoptionReducer(Rebuild(initial, events[..|events| - 1]), events[|events| - 1])
  }

  datatype RichField = Status | AdopterId | PetId | ApprovedBy | EscrowAccountId | EscrowTxHash | CompletedAt

  function FieldOf(state: AdoptionState, field: RichField): Option<string> {
    match field
    case Status => Some(state.status)
    case AdopterId => Some(state.adopterId)
    case PetId => Some(state.petId)
    case ApprovedBy => state.approvedBy
    case EscrowAccountId => state.escrowAccountId
    case EscrowTxHash => state.escrowTxHash
    case CompletedAt => state.completedAt
  }

  /** The type of event a field listens to, and the payload keys it reads there. */
  function Source(field: RichField): (string, seq<string>)
    requires !field.Status?
  {
    match field
    case AdopterId => ("ADOPTION_REQUESTED", ["adopterId", "userId"])
    case PetId => ("ADOPTION_REQUESTED", ["petId"])
    case ApprovedBy => ("ADOPTION_APPROVED", ["approvedBy", "adminId", "actorId"])
    case EscrowAccountId => ("ADOPTION_ESCROW_CREATED", ["escrowAccountId", "accountId"])
    case EscrowTxHash => ("ADOPTION_ESCROW_FUNDED", ["escrowTxHash", "txHash"])
    case CompletedAt => ("ADOPTION_COMPLETED", ["completedAt", "timestamp"])
  }

  /** What stands in for a payload that holds no string under a field's keys. */
  function StandIn(field: RichField, e: AdoptionEvent): Option<string> {
    match field
    case ApprovedBy => e.actorId
    case EscrowTxHash => e.txHash
    case CompletedAt => e.createdAt
    case _ => None
  }

  const RICH_STATUSES: map<string, string> :=
    map["ADOPTION_REQUESTED" := "REQUESTED", "ADOPTION_APPROVED" := "APPROVED", "ADOPTION_REJECTED" := "REJECTED",
        "ADOPTION_ESCROW_CREATED" := "ESCROW_CREATED", "ADOPTION_ESCROW_FUNDED" := "ESCROW_FUNDED",
        "ADOPTION_COMPLETED" := "COMPLETED"]

  /** What one event tells about a field. */
  function Tells(e: AdoptionEvent, field: RichField): Option<string> {
    if field.Status? then
      if e.eventType in RICH_STATUSES then Some(RICH_STATUSES[e.eventType]) else None
    else if e.eventType != Source(field).0 then None
    else OrElse(GetString(AsObject(e.payload), Source(field).1), StandIn(field, e))
  }

  /** A field holds what the last event that tells about it tells, or its initial value. */
  ghost predicate LastTold(events: seq<AdoptionEvent>, field: RichField, initial: Option<string>,
                           value: Option<string>)
  {
    || (&& value == initial && forall k :: 0 <= k < |events| ==> Tells(events[k], field).None?)
    || exists k :: 0 <= k < |events| && value.Some? && Tells(events[k], field) == value
                   && forall j :: k < j < |events| ==> Tells(events[j], field).None?
  }

  lemma RichStep(state: AdoptionState, e: AdoptionEvent, field: RichField)
    ensures FieldOf(AdoptionReducer(state, e), field) == OrElse(Tells(e, field), FieldOf(state, field))
  {
  }

  lemma LastToldStays(events: seq<AdoptionEvent>, e: AdoptionEvent, field: RichField, initial: Option<string>,
                      value: Option<string>)
    requires LastTold(events, field, initial, value) && Tells(e, field).None?
    ensures LastTold(events + [e], field, initial, value)
  {
    var longer := events + [e];
    assert forall k :: 0 <= k < |events| ==> longer[k] == events[k];
    if k :| 0 <= k < |events| && value.Some? && Tells(events[k], field) == value
            && forall j :: k < j < |events| ==> Tells(events[j], field).None? {
      assert Tells(longer[k], field) == value;
    }
  }

  lemma LastToldNew(events: seq<AdoptionEvent>, e: AdoptionEvent, field: RichField, initial: Option<string>)
    requires Tells(e, field).Some?
    ensures LastTold(events + [e], field, initial, Tells(e, field))
  {
    assert (events + [e])[|events|] == e;
  }

  /** The rich state in closed form: every field has what the last event that tells about it
      tells, or its initial value where none does. */
  lemma {:induction false} RichFieldsKeepLastWord(initial: AdoptionState, events: seq<AdoptionEvent>, field: RichField)
    ensures LastTold(events, field, FieldOf(initial, field), FieldOf(Rebuild(initial, events), field))
    decreases |events|
  {
    if events != [] {
      var init, e := events[..|events| - 1], events[|events| - 1];
      hide Tells, FieldOf, LastTold, AdoptionReducer;
      RichFieldsKeepLastWord(initial, init, field);
      RichStep(Rebuild(initial, init), e, field);
      assert events == init + [e];
      if Tells(e, field).Some? {
        LastToldNew(init, e, field, FieldOf(initial, field));
      } else {
        LastToldStays(init, e, field, FieldOf(initial, field), FieldOf(Rebuild(initial, init), field));
      }
    }
  }

  /** A field of the rich state has the first string under its keys in the last event of the
      type it listens to. */
  lemma {:induction false} RichFieldReadsPayload(initial: AdoptionState, events: seq<AdoptionEvent>, field: RichField,
                                                 k: nat, fields: Object, i: nat)
    requires !field.Status? && k < |events|
    requires events[k].eventType == Source(field).0 && events[k].payload == JsonObject(fields)
    requires forall j :: k < j < |events| ==> events[j].eventType != Source(field).0
    requires var keys := Source(field).1;
             && i < |keys| && HoldsString(fields, keys[i])
             && forall j :: 0 <= j < i ==> !HoldsString(fields, keys[j])
    ensures FieldOf(Rebuild(initial, events), field) == Some(fields[Source(field).1[i]].text)
    decreases |events|
  {
    hide AdoptionReducer, Source, StandIn;
    var n := |events| - 1;
    RichStep(Rebuild(initial, events[..n]), events[n], field);
    if k == n {
      FirstStringIsTaken(fields, Source(field).1, i);
    } else {
      assert forall j :: 0 <= j < n ==> events[..n][j] == events[j];
      RichFieldReadsPayload(initial, events[..n], field, k, fields, i);
    }
  }

  lemma {:induction false} OneKey(key: string, x: string, keys: seq<string>)
    ensures GetString(map[key := JsonString(x)], keys) == if key in keys then Some(x) else None
    decreases |keys|
  {
    if keys != [] {
      OneKey(key, x, keys[1..]);
    }
  }

  lemma {:induction false} NoKey(keys: seq<string>)
    ensures GetString(map[], keys) == None
    decreases |keys|
  {
    if keys != [] {
      NoKey(keys[1..]);
    }
  }

  /** What the rich reducer takes from a payload with one key. */
  lemma RichKeys(state: AdoptionState, e: AdoptionEvent, key: string, x: string)
    requires e.payload == JsonObject(map[key := JsonString(x)])
    ensures var after := AdoptionReducer(state, e);
            && (e.eventType == "ADOPTION_REQUESTED" ==>
                  && after.adopterId == (if key == "adopterId" || key == "userId" then x else state.adopterId)
                  && after.petId == (if key == "petId" then x else state.petId))
            && (e.eventType == "ADOPTION_APPROVED" && key in {"approvedBy", "adminId", "actorId"} ==>
                  after.approvedBy == Some(x))
            && (e.eventType == "ADOPTION_ESCROW_CREATED" && key in {"escrowAccountId", "accountId"} ==>
                  after.escrowAccountId == Some(x))
            && (e.eventType == "ADOPTION_ESCROW_FUNDED" && key in {"escrowTxHash", "txHash"} ==>
                  after.escrowTxHash == Some(x))
            && (e.eventType == "ADOPTION_COMPLETED" && key in {"completedAt", "timestamp"} ==>
                  after.completedAt == Some(x))
  {
    hide GetString;
    OneKey(key, x, ["adopterId", "userId"]);
    OneKey(key, x, ["petId"]);
    OneKey(key, x, ["approvedBy", "adminId", "actorId"]);
    OneKey(key, x, ["escrowAccountId", "accountId"]);
    OneKey(key, x, ["escrowTxHash", "txHash"]);
    OneKey(key, x, ["completedAt", "timestamp"]);
  }

  /** What stands in for a payload that is no object: the event's own actor, hash or time. */
  lemma RichStandIns(state: AdoptionState, e: AdoptionEvent)
    requires !e.payload.JsonObject?
    ensures var after := AdoptionReducer(state, e);
            && after.adopterId == state.adopterId && after.petId == state.petId
            && after.escrowAccountId == state.escrowAccountId
            && after.approvedBy
            == (if e.eventType == "ADOPTION_APPROVED" && e.actorId.Some? then e.actorId else state.approvedBy)
            && after.escrowTxHash
            == (if e.eventType == "ADOPTION_ESCROW_FUNDED" && e.txHash.Some? then e.txHash else state.escrowTxHash)
            && after.completedAt
            == (if e.eventType == "ADOPTION_COMPLETED" && e.createdAt.Some? then e.createdAt else state.completedAt)
  {
    hide GetString;
    NoKey(["adopterId", "userId"]);
    NoKey(["petId"]);
    NoKey(["approvedBy", "adminId", "actorId"]);
    NoKey(["escrowAccountId", "accountId"]);
    NoKey(["escrowTxHash", "txHash"]);
    NoKey(["completedAt", "timestamp"]);
  }

  // ---- Simulation ---------------------------------------------------------------------

  function TypeName(t: EventType): string {
    match t
    case UserRegistered => "USER_REGISTERED"
    case PetRegistered => "PET_REGISTERED"
    case PetListed => "PET_LISTED"
    case PetAdopted => "PET_ADOPTED"
    case PetCustodyActive => "PET_CUSTODY_ACTIVE"
    case PetReturned => "PET_RETURNED"
    case AdoptionRequested => "ADOPTION_REQUESTED"
    case AdoptionApproved => "ADOPTION_APPROVED"
    case AdoptionCompleted => "ADOPTION_COMPLETED"
    case CustodyCreated => "CUSTODY_CREATED"
    case CustodyStarted => "CUSTODY_STARTED"
    case CustodyCompleted => "CUSTODY_COMPLETED"
    case CustodyReturned => "CUSTODY_RETURNED"
    case PetCustodyCancelled => "PET_CUSTODY_CANCELLED"
    case CustodyViolation => "CUSTODY_VIOLATION"
    case CustodyCancelled => "CUSTODY_CANCELLED"
    case CustodyExtended => "CUSTODY_EXTENDED"
    case EscrowCreated => "ESCROW_CREATED"
    case EscrowWasFunded => "ESCROW_FUNDED"
    case EscrowReleased => "ESCROW_RELEASED"
    case EscrowRefunded => "ESCROW_REFUNDED"
    case TrustScoreUpdated => "TRUST_SCORE_UPDATED"
  }

  /** The statuses the replay service can give an adoption, by name. */
  function StatusName(r: Reducers.Record, default: string): string {
    if Reducers.StatusField !in r || !r[Reducers.StatusField].AdoptionValue? then default
    else
      match r[Reducers.StatusField].adoption
      case Requested => "REQUESTED"
      case Approved => "APPROVED"
      case Completed => "COMPLETED"
      case _ => default
  }

  lemma AdoptionTypeNames(t: EventType)
    ensures TypeName(t) == "ADOPTION_REQUESTED" <==> t.AdoptionRequested?
    ensures TypeName(t) == "ADOPTION_APPROVED" <==> t.AdoptionApproved?
    ensures TypeName(t) == "ADOPTION_COMPLETED" <==> t.AdoptionCompleted?
    ensures TypeName(t) != "ADOPTION_REJECTED" && TypeName(t) != "ADOPTION_CANCELLED"
    ensures TypeName(t) != "ADOPTION_ESCROW_CREATED" && TypeName(t) != "ADOPTION_ESCROW_FUNDED"
  {
  }

  /** The same events as two readers see them. */
  ghost predicate SameTypes(rich: seq<AdoptionEvent>, events: seq<Event>) {
    |rich| == |events| && forall k :: 0 <= k < |rich| ==> rich[k].eventType == TypeName(events[k].eventType)
  }

  lemma RichEventSets(state: AdoptionState, e: AdoptionEvent, t: EventType)
    requires e.eventType == TypeName(t)
    ensures AdoptionReducer(state, e).status
         == match t
            case AdoptionRequested => "REQUESTED"
            case AdoptionApproved => "APPROVED"
            case AdoptionCompleted => "COMPLETED"
            case _ => state.status
  {
    AdoptionTypeNames(t);
  }

  lemma ReplayStep(r: Reducers.Record, e: Event, default: string)
    requires Reducers.OfKind(AdoptionEntity, r)
    ensures var r' := Reducers.Reduce(AdoptionEntity, r, e);
            && Reducers.OfKind(AdoptionEntity, r')
            && StatusName(r', default)
            == match e.eventType
               case AdoptionRequested => "REQUESTED"
               case AdoptionApproved => "APPROVED"
               case AdoptionCompleted => "COMPLETED"
               case _ => StatusName(r, default)
  {
  }

  /** Simulation. Over event types the schema knows, the rich reducer and the replay service
      walk in step: the rich status is what the service replays from the same events, and the
      initial one until the first event that has a status. */
  lemma {:induction false} RichStatusFollowsReplay(initial: AdoptionState, rich: seq<AdoptionEvent>, events: seq<Event>)
    requires SameTypes(rich, events)
    ensures Rebuild(initial, rich).status
         == StatusName(Reducers.Replay(AdoptionEntity, map[], events), initial.status)
    ensures Reducers.OfKind(AdoptionEntity, Reducers.Replay(AdoptionEntity, map[], events))
    decreases |rich|
  {
    if rich != [] {
      var n := |rich| - 1;
      RichStatusFollowsReplay(initial, rich[..n], events[..n]);
      RichEventSets(Rebuild(initial, rich[..n]), rich[n], events[n].eventType);
      ReplayStep(Reducers.Replay(AdoptionEntity, map[], events[..n]), events[n], initial.status);
    }
  }

  /** The merging replay's name for a status of the replay service: a request is PENDING there. */
  function MergedName(r: Reducers.Record, default: Option<Json>): Option<Json> {
    var name := StatusName(r, "");
    if name == "" then default else Some(JsonString(if name == "REQUESTED" then "PENDING" else name))
  }

  /** What an adoption event without a status of its own says about the status. */
  lemma AdoptionEventSays(e: LedgerEvent, t: EventType, show: Json -> string)
    requires e.eventType == TypeName(t) && "status" !in AsObject(e.payload)
    ensures Says(AdoptionEntity, e, "status", show)
         == match t
            case AdoptionRequested => Some(JsonString("PENDING"))
            case AdoptionApproved => Some(JsonString("APPROVED"))
            case AdoptionCompleted => Some(JsonString("COMPLETED"))
            case _ => None
  {
    AdoptionTypeNames(t);
  }

  lemma MergedStep(r: Reducers.Record, e: Event, default: Option<Json>)
    requires Reducers.OfKind(AdoptionEntity, r)
    ensures var r' := Reducers.Reduce(AdoptionEntity, r, e);
            && Reducers.OfKind(AdoptionEntity, r')
            && MergedName(r', default)
            == match e.eventType
               case AdoptionRequested => Some(JsonString("PENDING"))
               case AdoptionApproved => Some(JsonString("APPROVED"))
               case AdoptionCompleted => Some(JsonString("COMPLETED"))
               case _ => MergedName(r, default)
  {
  }

  /** The third reading of the same events: where no payload carries a status of its own,
      the merging replay gives what the service replays, except that it calls a request
      PENDING. */
  lemma {:induction false} MergedStatusFollowsReplay(initial: Object, merged: seq<LedgerEvent>, events: seq<Event>,
                                                     show: Json -> string)
    requires |merged| == |events|
    requires forall k :: 0 <= k < |merged| ==>
               merged[k].eventType == TypeName(events[k].eventType) && "status" !in AsObject(merged[k].payload)
    ensures Lookup(ReplayAggregate(AdoptionEntity, merged, initial, show), "status")
         == MergedName(Reducers.Replay(AdoptionEntity, map[], events), Lookup(initial, "status"))
    ensures Reducers.OfKind(AdoptionEntity, Reducers.Replay(AdoptionEntity, map[], events))
    decreases |merged|
  {
    if merged != [] {
      var n := |merged| - 1;
      var state := ReplayAggregate(AdoptionEntity, merged[..n], initial, show);
      MergedStatusFollowsReplay(initial, merged[..n], events[..n], show);
      MergeStep(AdoptionEntity, state, merged[n], show, "status");
      AdoptionEventSays(merged[n], events[n].eventType, show);
      MergedStep(Reducers.Replay(AdoptionEntity, map[], events[..n]), events[n], Lookup(initial, "status"));
    }
  }
}
