/** Closing a custody: when it throws half-done, that it is otherwise all or nothing, and
    that it keeps the invariant. */
module WorkflowClosing {
  import opened Wrappers
  import opened Schema
  import opened Workflow
  import opened WorkflowInvariant
  import opened WorkflowSteps

  /** What is left to go wrong once the closing of a custody has been logged: its escrow
      is missing, or is tied to an adoption that a release cannot complete. */
  predicate DepositCanSettle(s: State, row: Custody, how: Closing) {
    row.escrowId.None?
    || (&& row.escrowId.value in s.escrows
        && (how.Return? ==>
              match AdoptionOf(s.adoptions, row.escrowId.value, s.nextId)
              case None => true
              case Some(a) =>
                && s.adoptions[a].status.EscrowFunded?
                && s.adoptions[a].petId in s.pets && s.adoptions[a].adopterId in s.users))
  }

  /** In any state whatsoever a closing that passes its guards and finds its holder throws
      with part of its work left behind exactly when the deposit cannot be settled; and it
      throws with nothing left behind exactly when the holder is missing. */
  lemma ClosingTearsExactlyWhen(s: State, custody: Id, how: Closing)
    requires CanClose(s, custody, how)
    ensures var row, reply := s.custodies[custody], CloseCustody(s, custody, how);
            && (reply.outcome.Err? <==> row.holderId !in s.users || !DepositCanSettle(s, row, how))
            && (row.holderId !in s.users ==> reply.state == s)
            && (row.holderId in s.users && !DepositCanSettle(s, row, how) ==>
                  && s.log < reply.state.log
                  && reply.state.custodies == s.custodies && reply.state.users == s.users)
  {
    var row := s.custodies[custody];
    var e := ClosedEvent(custody, row, how);
    if row.holderId in s.users {
      assert s.log < s.log + [e];
      assert s.log < s.log + [e] + [PetEvent(row, how)];
    }
  }

  /** With its holder there and its deposit free to settle, a closing does everything. */
  lemma ClosingDoes(s: State, custody: Id, how: Closing)
    requires CanClose(s, custody, how) && s.custodies[custody].holderId in s.users
    requires var x := s.custodies[custody].escrowId;
             x.Some? ==> x.value in s.escrows && AdoptionOf(s.adoptions, x.value, s.nextId).None?
    ensures CloseCustody(s, custody, how) == Reply(Closed(s, custody, how), Ok)
  {
  }

  /** What references and ownership say about a custody. */
  predicate Free(s: State, row: Custody) {
    && row.holderId in s.users && row.petId in s.pets
    && (row.escrowId.Some? ==>
          row.escrowId.value in s.escrows && AdoptionOf(s.adoptions, row.escrowId.value, s.nextId).None?)
  }

  lemma OwnedIsFree(s: State, custody: Id)
    requires References(s.users, s.pets, s.adoptions, s.custodies, s.escrows)
    requires EscrowsOwned(s.adoptions, s.custodies) && custody in s.custodies
    ensures Free(s, s.custodies[custody])
  {
  }

  lemma DepositIsFree(s: State, custody: Id)
    requires Inv(s) && custody in s.custodies
    ensures Free(s, s.custodies[custody])
  {
    assert Holds(TheReferences, s);
    assert Holds(TheOwnership, s);
    OwnedIsFree(s, custody);
  }

  /** The rows a closing touches have different identifiers. */
  lemma ClosingRowsApart(s: State, custody: Id)
    requires Inv(s) && custody in s.custodies
    ensures var row := s.custodies[custody];
            && custody != row.petId && custody != row.holderId && row.petId != row.holderId
            && row.escrowId !in {Some(custody), Some(row.petId), Some(row.holderId)}
            && custody !in s.adoptions && row.petId !in s.adoptions && row.holderId !in s.adoptions
            && (row.escrowId.Some? ==> row.escrowId.value !in s.adoptions)
  {
    DepositIsFree(s, custody);
    assert Holds(TheIds, s);
  }

  /** All or nothing: with references intact and no escrow belonging to two rows, a closing
      either throws at a guard and changes nothing, or does everything it is meant to do. */
  lemma ClosingIsAllOrNothing(s: State, custody: Id, how: Closing)
    requires References(s.users, s.pets, s.adoptions, s.custodies, s.escrows)
    requires EscrowsOwned(s.adoptions, s.custodies)
    ensures CloseCustody(s, custody, how)
         == if custody !in s.custodies then Fail(s, NotFound)
            else if !CanClose(s, custody, how) then Fail(s, InvalidTransition)
            else Reply(Closed(s, custody, how), Ok)
  {
    if CanClose(s, custody, how) {
      OwnedIsFree(s, custody);
      ClosingDoes(s, custody, how);
    }
  }

  lemma CloseDoes(s: State, custody: Id, how: Closing)
    requires Inv(s)
    ensures CloseCustody(s, custody, how)
         == if custody !in s.custodies then Fail(s, NotFound)
            else if !CanClose(s, custody, how) then Fail(s, InvalidTransition)
            else Reply(Closed(s, custody, how), Ok)
  {
    hide CloseCustody, Closed, References, EscrowsOwned;
    assert Holds(TheReferences, s);
    assert Holds(TheOwnership, s);
    ClosingIsAllOrNothing(s, custody, how);
  }

  lemma PetIsTold(s: State, row: Custody, how: Closing)
    requires Inv(s) && row.petId in s.pets
    ensures Inv(Announced(s, row, how))
  {
    assert Holds(TheIds, s);
    if how.Cancel? {
      EventIsLogged(s, PetEvent(row, how));
    }
  }

  /** A completed closing is made of changes that each keep the invariant. */
  lemma ClosingKeepsInv(s: State, custody: Id, how: Closing)
    requires Inv(s) && CanClose(s, custody, how)
    ensures Inv(Closed(s, custody, how))
  {
    var row := s.custodies[custody];
    DepositIsFree(s, custody);
    CustodyEnds(s, custody, how);
    var ended := Ended(s, custody, how);
    PetIsTold(ended, row, how);
    var announced := Announced(ended, row, how);
    if row.escrowId.Some? {
      EscrowSettles(announced, row.escrowId.value, SettledStatus(how));
    }
    if !how.Cancel? {
      ScoreChanges(DepositSettled(announced, row, how), row.holderId, ScoreDelta(how));
    }
  }

  // ---- What a closing adds to histories ----------------------------------------------

  /** An entity's share of the events of a closing: of the end itself, the notice to the
      pet, the settlement and the score, one kind per entity. */
  function ClosingSuffix(row: Custody, custody: Id, how: Closing, id: Id): seq<EventType> {
    if id == custody then [ClosedEventType(how)]
    else if how.Cancel? && id == row.petId then [PetCustodyCancelled]
    else if row.escrowId == Some(id) then [SettledType(SettledStatus(how))]
    else if !how.Cancel? && id == row.holderId then [TrustScoreUpdated]
    else []
  }

  function EndShare(custody: Id, how: Closing, id: Id): seq<EventType> {
    if id == custody then [ClosedEventType(how)] else []
  }

  function PetShare(row: Custody, how: Closing, id: Id): seq<EventType> {
    if how.Cancel? && id == row.petId then [PetCustodyCancelled] else []
  }

  function EscrowShare(row: Custody, how: Closing, id: Id): seq<EventType> {
    if row.escrowId == Some(id) then [SettledType(SettledStatus(how))] else []
  }

  function HolderShare(row: Custody, how: Closing, id: Id): seq<EventType> {
    if !how.Cancel? && id == row.holderId then [TrustScoreUpdated] else []
  }

  lemma OneShareEach(s: State, custody: Id, how: Closing, id: Id)
    requires Inv(s) && custody in s.custodies
    ensures var row := s.custodies[custody];
            EndShare(custody, how, id) + PetShare(row, how, id) + EscrowShare(row, how, id) + HolderShare(row, how, id)
            == ClosingSuffix(row, custody, how, id)
  {
    hide Inv;
    ClosingRowsApart(s, custody);
  }

  lemma SettlingTrails(s: State, row: Custody, how: Closing, i: Id)
    requires row.escrowId.Some? ==> row.escrowId.value in s.escrows
    ensures Trail(DepositSettled(s, row, how).log, i) == Trail(s.log, i) + EscrowShare(row, how, i)
    ensures DepositSettled(s, row, how).users == s.users
  {
    if row.escrowId.Some? {
      TrailSnoc(s.log, SettledEvent(s, row.escrowId.value, SettledStatus(how)));
    }
  }

  lemma RescoringTrails(s: State, row: Custody, how: Closing, i: Id)
    requires row.holderId in s.users
    ensures Trail(HolderRescored(s, row, how).log, i) == Trail(s.log, i) + HolderShare(row, how, i)
  {
    TrailSnoc(s.log, ScoreEvent(row.holderId, s.users[row.holderId].trustScore, ScoreDelta(how)));
  }

  lemma EndingTrails(s: State, custody: Id, how: Closing, i: Id)
    requires custody in s.custodies
    ensures var row := s.custodies[custody];
            var announced := Announced(Ended(s, custody, how), row, how);
            && Trail(announced.log, i) == Trail(s.log, i) + EndShare(custody, how, i) + PetShare(row, how, i)
            && announced.users == s.users && announced.escrows == s.escrows
  {
    var row := s.custodies[custody];
    TrailSnoc(s.log, ClosedEvent(custody, row, how));
    TrailSnoc(Ended(s, custody, how).log, PetEvent(row, how));
  }

  lemma Regroup(t: seq<EventType>, a: seq<EventType>, b: seq<EventType>, c: seq<EventType>, d: seq<EventType>)
    ensures t + a + b + c + d == t + (a + b + c + d)
  {
  }

  lemma ClosedTrails(s: State, custody: Id, how: Closing, i: Id)
    requires Inv(s) && custody in s.custodies
    ensures Trail(Closed(s, custody, how).log, i)
         == Trail(s.log, i) + ClosingSuffix(s.custodies[custody], custody, how, i)
  {
    hide Trail, Ended, Announced, DepositSettled, HolderRescored, EndShare, PetShare, EscrowShare, HolderShare;
    var row := s.custodies[custody];
    var announced := Announced(Ended(s, custody, how), row, how);
    DepositIsFree(s, custody);
    EndingTrails(s, custody, how, i);
    SettlingTrails(announced, row, how, i);
    RescoringTrails(DepositSettled(announced, row, how), row, how, i);
    OneShareEach(s, custody, how, i);
    Regroup(Trail(s.log, i), EndShare(custody, how, i), PetShare(row, how, i), EscrowShare(row, how, i),
            HolderShare(row, how, i));
  }

  /** The tables after a completed closing, scores aside. */
  lemma ClosedTables(s: State, custody: Id, how: Closing)
    requires custody in s.custodies && s.custodies[custody].holderId in s.users
    requires var x := s.custodies[custody].escrowId; x.Some? ==> x.value in s.escrows
    ensures var x, s' := s.custodies[custody].escrowId, Closed(s, custody, how);
            && s'.custodies == SetCustody(s, custody, ClosedStatus(how)).custodies
            && s'.escrows == (if x.Some? then SetEscrow(s, x.value, SettledStatus(how)).escrows else s.escrows)
            && s'.adoptions == s.adoptions && s'.pets == s.pets && s'.nextId == s.nextId
  {
  }
}
