/** The ways the repository tells whether a pet is available. */
module Availability {
  import opened Wrappers
  import opened Schema
  import opened Workflow
  import opened WorkflowInvariant
  import opened WorkflowRuns
  import AdoptionStateMachine
  import Lifecycle

  // ---- From the tables ------------------------------------------------------------

  predicate Blocks(status: AdoptionStatus) {
    status !in {AdoptionStatus.Rejected, AdoptionStatus.Cancelled}
  }

  /** `getPetAvailability`: two queries for a first match. */
  function GetPetAvailability(s: State, pet: Id): bool {
    if exists a | a in s.adoptions :: s.adoptions[a].petId == pet && Blocks(s.adoptions[a].status) then false
    else if exists c | c in s.custodies :: s.custodies[c].petId == pet && s.custodies[c].status.Active? then false
    else true
  }

  /** The flag `findAll` computes: the joined adoptions and custodies, filtered and counted. */
  function ListedAsAvailable(s: State, pet: Id): bool {
    var adoptions := set a | a in s.adoptions && s.adoptions[a].petId == pet && Blocks(s.adoptions[a].status);
    var custodies := set c | c in s.custodies && s.custodies[c].petId == pet && s.custodies[c].status.Active?;
    |adoptions| == 0 && |custodies| == 0
  }

  /** Both ways to compute availability from the tables agree in every state. */
  lemma TableViewsAgree(s: State, pet: Id)
    ensures ListedAsAvailable(s, pet) == GetPetAvailability(s, pet)
  {
    var adoptions := set a | a in s.adoptions && s.adoptions[a].petId == pet && Blocks(s.adoptions[a].status);
    var custodies := set c | c in s.custodies && s.custodies[c].petId == pet && s.custodies[c].status.Active?;
    if a :| a in s.adoptions && s.adoptions[a].petId == pet && Blocks(s.adoptions[a].status) {
      assert a in adoptions;
    }
    if c :| c in s.custodies && s.custodies[c].petId == pet && s.custodies[c].status.Active? {
      assert c in custodies;
    }
  }

  /** The three refusals of `createCustody` together are availability: in every state it
      goes through exactly for a registered user, an existing and available pet, a start
      that is not past and 1 to 90 days. */
  lemma CustodyNeedsAvailablePet(s: State, user: Id, pet: Id, past: bool, days: int, deposit: Option<int>)
    ensures CreateCustody(s, user, pet, past, days, deposit).outcome.Ok?
       <==> pet in s.pets && GetPetAvailability(s, pet) && !past && 1 <= days <= 90 && user in s.users
  {
    forall a | a in s.adoptions
      ensures Blocks(s.adoptions[a].status)
         <==> AdoptionStateMachine.Open(s.adoptions[a].status) || s.adoptions[a].status.Completed?
    {
    }
  }

  /** Rejecting an adoption frees its pet, up to what else may hold it: afterwards the pet
      is available exactly when it has no completed adoption and no active custody. */
  lemma RejectionFreesPet(run: seq<Step>, adoption: Id)
    requires RejectAdoption(After(EMPTY_STATE, run), adoption).outcome.Ok?
    ensures var s := After(EMPTY_STATE, run);
            var s' := RejectAdoption(s, adoption).state;
            && adoption in s.adoptions
            && var pet := s.adoptions[adoption].petId;
               GetPetAvailability(s', pet) <==> !HasCompletedAdoption(s', pet) && !HasActiveCustody(s', pet)
  {
    Reachable(run);
    var s := After(EMPTY_STATE, run);
    var s' := RejectAdoption(s, adoption).state;
    var pet := s.adoptions[adoption].petId;
    assert Holds(TheOpenAdoptions, s);
    if a :| a in s'.adoptions && s'.adoptions[a].petId == pet && s'.adoptions[a].status.Completed? {
      assert Blocks(s'.adoptions[a].status);
    }
    forall a | a in s'.adoptions && s'.adoptions[a].petId == pet && Blocks(s'.adoptions[a].status)
      ensures s'.adoptions[a].status.Completed?
    {
      assert a != adoption && s'.adoptions[a] == s.adoptions[a];
    }
  }

  // ---- From the events ----------------------------------------------------------------

  datatype PetStatus = Available | Pending | InCustody | Adopted

  /** What a single event type says; None for the ones the reducer skips. */
  function PetStatusOf(eventType: string): Option<PetStatus> {
    if eventType == "PET_LISTED" then Some(Available)
    else if eventType == "ADOPTION_REQUESTED" || eventType == "PET_ADOPTION_REQUESTED" then Some(PetStatus.Pending)
    else if eventType == "ADOPTION_APPROVED" || eventType == "PET_ADOPTION_APPROVED" then Some(PetStatus.Pending)
    else if eventType == "ADOPTION_COMPLETED" || eventType == "PET_ADOPTED" then Some(Adopted)
    else if eventType == "CUSTODY_STARTED" || eventType == "PET_CUSTODY_ACTIVE" then Some(InCustody)
    else if eventType == "CUSTODY_RETURNED" || eventType == "PET_RETURNED" then Some(Available)
    else None
  }

  function CustodyStatusOf(eventType: string): Option<CustodyStatus> {
    if eventType == "CUSTODY_CREATED" then Some(CustodyStatus.Pending)
    else if eventType == "CUSTODY_STARTED" then Some(Active)
    else if eventType == "CUSTODY_COMPLETED" then Some(CustodyStatus.Completed)
    else if eventType == "CUSTODY_CANCELLED" then Some(CustodyStatus.Cancelled)
    else None
  }

  /** `status` is what the last determining event says, or the default without one. */
  ghost predicate LastDetermines<S>(says: string -> Option<S>, events: seq<string>, default: S, status: S) {
    || (&& status == default && forall k :: 0 <= k < |events| ==> says(events[k]).None?)
    || exists k :: 0 <= k < |events| && says(events[k]) == Some(status)
                   && forall j :: k < j < |events| ==> says(events[j]).None?
  }

  lemma LastDeterminesOnce<S>(says: string -> Option<S>, events: seq<string>, default: S, a: S, b: S)
    requires LastDetermines(says, events, default, a) && LastDetermines(says, events, default, b)
    ensures a == b
  {
    if j :| 0 <= j < |events| && says(events[j]) == Some(a) && forall i :: j < i < |events| ==> says(events[i]).None? {
      if k :| 0 <= k < |events| && says(events[k]) == Some(b)
              && forall i :: k < i < |events| ==> says(events[i]).None? {
        assert j == k;
      }
    }
  }

  method PetAvailabilityReducer(events: seq<string>) returns (currentStatus: PetStatus)
    ensures LastDetermines(PetStatusOf, events, Available, currentStatus)
  {
    currentStatus := Available;
    ghost var last := -1;
    for i := 0 to |events|
      invariant -1 <= last < i
      invariant forall j :: last < j < i ==> PetStatusOf(events[j]).None?
      invariant if last < 0 then currentStatus == Available else PetStatusOf(events[last]) == Some(currentStatus)
    {
      var event := events[i];
      if event == "PET_LISTED" {
        currentStatus := Available;
        last := i;
      } else if event == "ADOPTION_REQUESTED" || event == "PET_ADOPTION_REQUESTED" {
        currentStatus := PetStatus.Pending;
        last := i;
      } else if event == "ADOPTION_APPROVED" || event == "PET_ADOPTION_APPROVED" {
        currentStatus := PetStatus.Pending;
        last := i;
      } else if event == "ADOPTION_COMPLETED" || event == "PET_ADOPTED" {
        currentStatus := Adopted;
        last := i;
      } else if event == "CUSTODY_STARTED" || event == "PET_CUSTODY_ACTIVE" {
        currentStatus := InCustody;
        last := i;
      } else if event == "CUSTODY_RETURNED" || event == "PET_RETURNED" {
        currentStatus := Available;
        last := i;
      }
    }
  }

  method CustodyReducer(events: seq<string>) returns (currentStatus: CustodyStatus)
    ensures LastDetermines(CustodyStatusOf, events, CustodyStatus.Pending, currentStatus)
  {
    currentStatus := CustodyStatus.Pending;
    ghost var last := -1;
    for i := 0 to |events|
      invariant -1 <= last < i
      invariant forall j :: last < j < i ==> CustodyStatusOf(events[j]).None?
      invariant if last < 0 then currentStatus == CustodyStatus.Pending
                else CustodyStatusOf(events[last]) == Some(currentStatus)
    {
      var event := events[i];
      if event == "CUSTODY_CREATED" {
        currentStatus := CustodyStatus.Pending;
        last := i;
      } else if event == "CUSTODY_STARTED" {
        currentStatus := Active;
        last := i;
      } else if event == "CUSTODY_COMPLETED" {
        currentStatus := CustodyStatus.Completed;
        last := i;
      } else if event == "CUSTODY_CANCELLED" {
        currentStatus := CustodyStatus.Cancelled;
        last := i;
      }
    }
  }

  /** `isMatch` of `verifyAvailability`. */
  function IsMatch(replayed: PetStatus, dbAvailable: bool): bool {
    || (replayed.Available? && dbAvailable)
    || (replayed.Pending? && dbAvailable)
    || (replayed.Adopted? && !dbAvailable)
    || (replayed.InCustody? && !dbAvailable)
  }

  /** That is, the tables agree with the events: a pet counts as available exactly while its
      events leave it available or pending. */
  lemma MatchesExactlyWhen(replayed: PetStatus, dbAvailable: bool)
    ensures IsMatch(replayed, dbAvailable) <==> (dbAvailable <==> replayed in {Available, PetStatus.Pending})
  {
  }

  /** Which event types determine which status. */
  lemma PetEventsDetermine(eventType: string)
    ensures PetStatusOf(eventType) == Some(Available)
       <==> eventType in {"PET_LISTED", "CUSTODY_RETURNED", "PET_RETURNED"}
    ensures PetStatusOf(eventType) == Some(PetStatus.Pending)
       <==> eventType in {"ADOPTION_REQUESTED", "PET_ADOPTION_REQUESTED", "ADOPTION_APPROVED", "PET_ADOPTION_APPROVED"}
    ensures PetStatusOf(eventType) == Some(InCustody) <==> eventType in {"CUSTODY_STARTED", "PET_CUSTODY_ACTIVE"}
    ensures PetStatusOf(eventType) == Some(Adopted) <==> eventType in {"ADOPTION_COMPLETED", "PET_ADOPTED"}
  {
  }

  lemma CustodyEventsDetermine(eventType: string)
    ensures CustodyStatusOf(eventType) == Some(CustodyStatus.Pending) <==> eventType == "CUSTODY_CREATED"
    ensures CustodyStatusOf(eventType) == Some(Active) <==> eventType == "CUSTODY_STARTED"
    ensures CustodyStatusOf(eventType) == Some(CustodyStatus.Completed) <==> eventType == "CUSTODY_COMPLETED"
    ensures CustodyStatusOf(eventType) == Some(CustodyStatus.Cancelled) <==> eventType == "CUSTODY_CANCELLED"
    ensures CustodyStatusOf(eventType) !in {Some(Returned), Some(Violation)}
  {
  }

  function Names(types: seq<EventType>): seq<string> {
    seq(|types|, k requires 0 <= k < |types| => Lifecycle.TypeName(types[k]))
  }

  lemma CancellationSaysNothing()
    ensures PetStatusOf(Lifecycle.TypeName(PetCustodyCancelled)).None?
  {
  }

  /** In every state the workflow reaches, a pet's own events replay to AVAILABLE: adoptions
      and custodies log under their own identifiers. So the check reports a match exactly
      when the tables say available, and a discrepancy for every adopted, reserved or
      actively held pet. */
  lemma VerificationSeesOnlyAvailable(run: seq<Step>, pet: Id, replayed: PetStatus)
    requires var s := After(EMPTY_STATE, run);
             pet in s.pets && LastDetermines(PetStatusOf, Names(Trail(s.log, pet)), Available, replayed)
    ensures var s := After(EMPTY_STATE, run);
            && replayed == Available
            && (IsMatch(replayed, GetPetAvailability(s, pet)) <==> GetPetAvailability(s, pet))
  {
    Reachable(run);
    var s := After(EMPTY_STATE, run);
    assert Holds(ThePets, s);
    var trail := Trail(s.log, pet);
    forall k | 0 <= k < |trail| ensures PetStatusOf(Names(trail)[k]).None? {
      assert trail[k] in trail;
      CancellationSaysNothing();
    }
  }

  /** What the stand-alone custody reducer makes of a custody, given its row. */
  function StandAloneStatus(status: CustodyStatus): CustodyStatus {
    if status.Cancelled? then CustodyStatus.Cancelled else Active
  }

  lemma CustodyTrailReduces(status: CustodyStatus)
    requires !status.Completed?
    ensures LastDetermines(CustodyStatusOf, Names(CustodyTrail(status)), CustodyStatus.Pending,
                           StandAloneStatus(status))
  {
    var names := Names(CustodyTrail(status));
    var k := if status.Cancelled? then 1 else 0;
    assert names[0] == "CUSTODY_STARTED";
    assert CustodyStatusOf(names[k]) == Some(StandAloneStatus(status));
    assert forall j :: k < j < |names| ==> CustodyStatusOf(names[j]).None?;
  }

  /** The stand-alone custody reducer knows neither returns nor violations, and takes the
      start of a custody for its activation: on the workflow's events it gives the row's
      status exactly for active and cancelled custodies. */
  lemma CustodyReducerAgreesExactlyWhen(run: seq<Step>, custody: Id, replayed: CustodyStatus)
    requires var s := After(EMPTY_STATE, run);
             && custody in s.custodies
             && LastDetermines(CustodyStatusOf, Names(Trail(s.log, custody)), CustodyStatus.Pending, replayed)
    ensures var row := After(EMPTY_STATE, run).custodies[custody];
            replayed == row.status <==> row.status.Active? || row.status.Cancelled?
  {
    Reachable(run);
    var s := After(EMPTY_STATE, run);
    assert Holds(TheCustodies, s);
    var status := s.custodies[custody].status;
    CustodyTrailReduces(status);
    LastDeterminesOnce(CustodyStatusOf, Names(CustodyTrail(status)), CustodyStatus.Pending, replayed,
                       StandAloneStatus(status));
  }
}
