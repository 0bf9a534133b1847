/** How each part of the workflow invariant fares when one row changes, one row is added
    or one event is logged. */
module WorkflowFrames {
  import opened Wrappers
  import opened Schema
  import opened WorkflowInvariant
  import opened Sums
  import AdoptionStateMachine

  // ---- Identifiers ----------------------------------------------------------------

  lemma KeysKept<T>(rows: map<Id, T>, id: Id, row: T)
    requires id in rows
    ensures rows[id := row].Keys == rows.Keys
  {
  }

  lemma KeysAdded<T>(rows: map<Id, T>, id: Id, row: T)
    ensures rows[id := row].Keys == rows.Keys + {id}
  {
  }

  lemma FreshLogged(log: seq<Event>, nextId: Id, e: Event)
    requires FreshFrom(log, nextId) && e.entityId < nextId
    ensures FreshFrom(log + [e], nextId)
  {
    TrailSnoc(log, e);
  }

  lemma FreshShrinks(log: seq<Event>, nextId: Id, further: Id)
    requires FreshFrom(log, nextId) && nextId <= further
    ensures FreshFrom(log, further)
  {
  }

  /** The next identifier can go to a row of any one table. */
  lemma ApartGrows(users: set<Id>, pets: set<Id>, adoptions: set<Id>, custodies: set<Id>, escrows: set<Id>, nextId: Id)
    requires KeysApart(users, pets, adoptions, custodies, escrows, nextId)
    ensures KeysApart(users + {nextId}, pets, adoptions, custodies, escrows, nextId + 1)
    ensures KeysApart(users, pets + {nextId}, adoptions, custodies, escrows, nextId + 1)
    ensures KeysApart(users, pets, adoptions + {nextId}, custodies, escrows, nextId + 1)
    ensures KeysApart(users, pets, adoptions, custodies + {nextId}, escrows, nextId + 1)
    ensures KeysApart(users, pets, adoptions, custodies, escrows + {nextId}, nextId + 1)
  {
  }

  ghost predicate Unused(s: State, id: Id) {
    && id !in s.users && id !in s.pets && id !in s.adoptions && id !in s.custodies && id !in s.escrows
    && Trail(s.log, id) == []
  }

  lemma NextIsUnused(s: State)
    requires Ids(s)
    ensures Unused(s, s.nextId)
  {
  }

  lemma IdsNewUser(s: State, row: User)
    requires Ids(s)
    ensures Ids(s.(users := s.users[s.nextId := row], nextId := s.nextId + 1))
  {
    KeysAdded(s.users, s.nextId, row);
    ApartGrows(s.users.Keys, s.pets.Keys, s.adoptions.Keys, s.custodies.Keys, s.escrows.Keys, s.nextId);
    FreshShrinks(s.log, s.nextId, s.nextId + 1);
  }

  lemma IdsNewPet(s: State, row: Pet)
    requires Ids(s)
    ensures Ids(s.(pets := s.pets[s.nextId := row], nextId := s.nextId + 1))
  {
    KeysAdded(s.pets, s.nextId, row);
    ApartGrows(s.users.Keys, s.pets.Keys, s.adoptions.Keys, s.custodies.Keys, s.escrows.Keys, s.nextId);
    FreshShrinks(s.log, s.nextId, s.nextId + 1);
  }

  lemma IdsNewAdoption(s: State, row: Adoption)
    requires Ids(s)
    ensures Ids(s.(adoptions := s.adoptions[s.nextId := row], nextId := s.nextId + 1))
  {
    KeysAdded(s.adoptions, s.nextId, row);
    ApartGrows(s.users.Keys, s.pets.Keys, s.adoptions.Keys, s.custodies.Keys, s.escrows.Keys, s.nextId);
    FreshShrinks(s.log, s.nextId, s.nextId + 1);
  }

  lemma IdsNewCustody(s: State, row: Custody)
    requires Ids(s)
    ensures Ids(s.(custodies := s.custodies[s.nextId := row], nextId := s.nextId + 1))
  {
    KeysAdded(s.custodies, s.nextId, row);
    ApartGrows(s.users.Keys, s.pets.Keys, s.adoptions.Keys, s.custodies.Keys, s.escrows.Keys, s.nextId);
    FreshShrinks(s.log, s.nextId, s.nextId + 1);
  }

  lemma IdsNewEscrow(s: State, row: Escrow)
    requires Ids(s)
    ensures Ids(s.(escrows := s.escrows[s.nextId := row], nextId := s.nextId + 1))
  {
    KeysAdded(s.escrows, s.nextId, row);
    ApartGrows(s.users.Keys, s.pets.Keys, s.adoptions.Keys, s.custodies.Keys, s.escrows.Keys, s.nextId);
    FreshShrinks(s.log, s.nextId, s.nextId + 1);
  }

  // ---- References -------------------------------------------------------------------

  lemma ReferencesUser(users: map<Id, User>, pets: map<Id, Pet>, adoptions: map<Id, Adoption>,
                       custodies: map<Id, Custody>, escrows: map<Id, Escrow>, u: Id, row: User)
    requires References(users, pets, adoptions, custodies, escrows)
    ensures References(users[u := row], pets, adoptions, custodies, escrows)
  {
  }

  lemma ReferencesPet(users: map<Id, User>, pets: map<Id, Pet>, adoptions: map<Id, Adoption>,
                      custodies: map<Id, Custody>, escrows: map<Id, Escrow>, p: Id, row: Pet)
    requires References(users, pets, adoptions, custodies, escrows)
    requires row.currentOwner.Some? ==> row.currentOwner.value in users
    ensures References(users, pets[p := row], adoptions, custodies, escrows)
  {
  }

  lemma ReferencesEscrow(users: map<Id, User>, pets: map<Id, Pet>, adoptions: map<Id, Adoption>,
                         custodies: map<Id, Custody>, escrows: map<Id, Escrow>, x: Id, row: Escrow)
    requires References(users, pets, adoptions, custodies, escrows)
    ensures References(users, pets, adoptions, custodies, escrows[x := row])
  {
  }

  lemma ReferencesAdoption(users: map<Id, User>, pets: map<Id, Pet>, adoptions: map<Id, Adoption>,
                           custodies: map<Id, Custody>, escrows: map<Id, Escrow>, a: Id, row: Adoption)
    requires References(users, pets, adoptions, custodies, escrows)
    requires row.petId in pets && row.adopterId in users && row.ownerId in users
    requires row.escrowId.Some? ==> row.escrowId.value in escrows
    ensures References(users, pets, adoptions[a := row], custodies, escrows)
  {
  }

  lemma ReferencesCustody(users: map<Id, User>, pets: map<Id, Pet>, adoptions: map<Id, Adoption>,
                          custodies: map<Id, Custody>, escrows: map<Id, Escrow>, c: Id, row: Custody)
    requires References(users, pets, adoptions, custodies, escrows)
    requires row.petId in pets && row.holderId in users
    requires row.escrowId.Some? ==> row.escrowId.value in escrows
    ensures References(users, pets, adoptions, custodies[c := row], escrows)
  {
  }

  // ---- Escrow ownership ----------------------------------------------------------------

  /** No custody and no adoption has the escrow. */
  predicate Unowned(adoptions: map<Id, Adoption>, custodies: map<Id, Custody>, escrow: Id) {
    && (forall c :: c in custodies ==> custodies[c].escrowId != Some(escrow))
    && (forall a :: a in adoptions ==> adoptions[a].escrowId != Some(escrow))
  }

  lemma OwnedAdoption(adoptions: map<Id, Adoption>, custodies: map<Id, Custody>, a: Id, row: Adoption)
    requires EscrowsOwned(adoptions, custodies)
    requires row.escrowId.None? || (a in adoptions && row.escrowId == adoptions[a].escrowId)
          || Unowned(adoptions, custodies, row.escrowId.value)
    ensures EscrowsOwned(adoptions[a := row], custodies)
  {
  }

  lemma OwnedCustody(adoptions: map<Id, Adoption>, custodies: map<Id, Custody>, c: Id, row: Custody)
    requires EscrowsOwned(adoptions, custodies)
    requires row.escrowId.None? || (c in custodies && row.escrowId == custodies[c].escrowId)
          || Unowned(adoptions, custodies, row.escrowId.value)
    ensures EscrowsOwned(adoptions, custodies[c := row])
  {
  }

  // ---- Adoptions -------------------------------------------------------------------------

  lemma OneOpenMoves(adoptions: map<Id, Adoption>, a: Id, row: Adoption)
    requires OneOpenPerPet(adoptions) && a in adoptions && row.petId == adoptions[a].petId
    requires AdoptionStateMachine.Open(row.status) ==> AdoptionStateMachine.Open(adoptions[a].status)
    ensures OneOpenPerPet(adoptions[a := row])
  {
  }

  lemma OneOpenNew(adoptions: map<Id, Adoption>, a: Id, row: Adoption)
    requires OneOpenPerPet(adoptions)
    requires forall b :: b in adoptions && adoptions[b].petId == row.petId ==>
               !AdoptionStateMachine.Open(adoptions[b].status)
    ensures OneOpenPerPet(adoptions[a := row])
  {
  }

  // ---- Sums over custodies ---------------------------------------------------------------

  lemma DepositsKept(custodies: map<Id, Custody>, nextId: Id, c: Id, row: Custody)
    requires c in custodies && row.depositAmount == custodies[c].depositAmount
    ensures DepositTotal(custodies[c := row], nextId) == DepositTotal(custodies, nextId)
  {
    SumSame((d: Id) => DepositOf(custodies, d), (d: Id) => DepositOf(custodies[c := row], d), nextId);
  }

  lemma DepositsExtend(custodies: map<Id, Custody>, nextId: Id)
    requires nextId !in custodies
    ensures DepositTotal(custodies, nextId + 1) == DepositTotal(custodies, nextId)
  {
  }

  /** A new custody adds its deposit. */
  lemma DepositsGrow(custodies: map<Id, Custody>, nextId: Id, row: Custody)
    requires nextId !in custodies
    ensures DepositTotal(custodies[nextId := row], nextId + 1)
         == DepositTotal(custodies, nextId) + row.depositAmount.GetOr(0)
  {
    SumSame((d: Id) => DepositOf(custodies, d), (d: Id) => DepositOf(custodies[nextId := row], d), nextId);
  }

  lemma HeldSame(custodies: map<Id, Custody>, escrows: map<Id, Escrow>,
                 custodies': map<Id, Custody>, escrows': map<Id, Escrow>, nextId: Id)
    requires forall c: Id :: c < nextId ==> HeldFor(custodies, escrows, c) == HeldFor(custodies', escrows', c)
    ensures HeldTotal(custodies, escrows, nextId) == HeldTotal(custodies', escrows', nextId)
  {
    SumSame((c: Id) => HeldFor(custodies, escrows, c), (c: Id) => HeldFor(custodies', escrows', c), nextId);
  }

  lemma HeldChange(custodies: map<Id, Custody>, escrows: map<Id, Escrow>, escrows': map<Id, Escrow>, nextId: Id, at: Id)
    requires at < nextId
    requires forall c: Id :: c < nextId && c != at ==> HeldFor(custodies, escrows, c) == HeldFor(custodies, escrows', c)
    ensures HeldTotal(custodies, escrows', nextId)
         == HeldTotal(custodies, escrows, nextId) - HeldFor(custodies, escrows, at) + HeldFor(custodies, escrows', at)
  {
    SumChange((c: Id) => HeldFor(custodies, escrows, c), (c: Id) => HeldFor(custodies, escrows', c), nextId, at);
  }

  lemma EscrowsOfCustodiesKept(custodies: map<Id, Custody>, c: Id, row: Custody)
    requires c in custodies && row.escrowId == custodies[c].escrowId
    ensures CustodyEscrows(custodies[c := row]) == CustodyEscrows(custodies)
  {
    var custodies' := custodies[c := row];
    forall x | x in CustodyEscrows(custodies) ensures x in CustodyEscrows(custodies') {
      var d :| d in custodies && custodies[d].escrowId == Some(x);
      assert custodies'[d].escrowId == Some(x);
    }
  }

  lemma EscrowsOfCustodiesGrow(custodies: map<Id, Custody>, c: Id, row: Custody)
    requires c !in custodies
    ensures CustodyEscrows(custodies[c := row])
         == CustodyEscrows(custodies) + (if row.escrowId.Some? then {row.escrowId.value} else {})
  {
    var custodies' := custodies[c := row];
    forall x | x in CustodyEscrows(custodies) ensures x in CustodyEscrows(custodies') {
      var d :| d in custodies && custodies[d].escrowId == Some(x);
      assert custodies'[d].escrowId == Some(x);
    }
    assert custodies'[c] == row;
  }

  // ---- One event -------------------------------------------------------------------------

  lemma CustodyTrailsLogged(custodies: map<Id, Custody>, log: seq<Event>, e: Event)
    requires CustodyTrails(custodies, log) && e.entityId !in custodies
    ensures CustodyTrails(custodies, log + [e])
  {
    TrailSnoc(log, e);
  }

  /** A custody takes a status whose history the extended log shows. */
  lemma CustodyTrailsMove(custodies: map<Id, Custody>, log: seq<Event>, c: Id, row: Custody, e: Event)
    requires CustodyTrails(custodies, log) && e.entityId == c && !row.status.Completed?
    requires Trail(log, c) + [e.eventType] == CustodyTrail(row.status)
    ensures CustodyTrails(custodies[c := row], log + [e])
  {
    TrailSnoc(log, e);
  }

  lemma CustodyTrailsKept(custodies: map<Id, Custody>, log: seq<Event>, c: Id, row: Custody)
    requires CustodyTrails(custodies, log) && c in custodies && !row.status.Completed?
    requires CustodyTrail(row.status) == CustodyTrail(custodies[c].status)
    ensures CustodyTrails(custodies[c := row], log)
  {
  }

  lemma PetTrailsLogged(pets: map<Id, Pet>, log: seq<Event>, e: Event)
    requires PetTrails(pets, log)
    requires e.entityId in pets ==> e.eventType == PetCustodyCancelled
    ensures PetTrails(pets, log + [e])
  {
    TrailSnoc(log, e);
  }

  lemma PetTrailsNew(pets: map<Id, Pet>, log: seq<Event>, p: Id, row: Pet)
    requires PetTrails(pets, log) && (p in pets || Trail(log, p) == [])
    ensures PetTrails(pets[p := row], log)
  {
  }

  lemma ScoresLogged(users: map<Id, User>, log: seq<Event>, e: Event)
    requires Scores(users, log) && Chained(log) && !e.eventType.TrustScoreUpdated?
    ensures Scores(users, log + [e]) && Chained(log + [e])
  {
    HistorySnoc(log, e);
  }
}
