/** What a replay answers, writes and leaves in the application log, for every kind of
    aggregate. */
module ReplayAnswers {
  import opened Wrappers
  import opened Schema
  import opened Reducers
  import opened ReplayService

  /** The replay is asked for this kind, or finds it on the aggregate's first event. */
  predicate Asks(s: State, o: Options, kind: EntityType) {
    var events := EventsOf(s.log, o.aggregateId);
    if o.aggregateType.Some? then o.aggregateType.value == kind else events != [] && events[0].entityType == kind
  }

  lemma NothingToReplay(s: State, o: Options)
    requires o.aggregateType.None? && forall e :: e in s.log ==> e.entityId != o.aggregateId
    ensures AggregateReplay(s, o) == (s, None)
  {
    NoEvents(s.log, o.aggregateId);
  }

  lemma {:induction false} NoEvents(log: seq<Event>, id: Id)
    requires forall e :: e in log ==> e.entityId != id
    ensures EventsOf(log, id) == []
    decreases |log|
  {
    if log != [] {
      assert forall e :: e in log[..|log| - 1] ==> e in log;
      NoEvents(log[..|log| - 1], id);
    }
  }

  // ---- Discrepancies ------------------------------------------------------------------

  function On(f: Field, replayed: Record, current: Record): seq<Discrepancy> {
    if f in replayed && !Same(replayed[f], Lookup(current, f)) then [Discrepancy(f, replayed[f], Lookup(current, f))]
    else []
  }

  lemma DiffOnSnoc(fields: seq<Field>, f: Field, replayed: Record, current: Record)
    ensures DiffOn(fields + [f], replayed, current) == DiffOn(fields, replayed, current) + On(f, replayed, current)
  {
    assert (fields + [f])[..|fields|] == fields;
  }

  lemma DiffIs(replayed: Record, current: Record)
    ensures Diff(replayed, current)
         == On(StatusField, replayed, current) + On(TrustScoreField, replayed, current)
          + On(RegisteredField, replayed, current)
  {
    hide On;
    DiffOnSnoc([], StatusField, replayed, current);
    DiffOnSnoc([StatusField], TrustScoreField, replayed, current);
    DiffOnSnoc([StatusField, TrustScoreField], RegisteredField, replayed, current);
    assert [] + [StatusField] == [StatusField];
    assert [StatusField] + [TrustScoreField] == [StatusField, TrustScoreField];
    assert [StatusField, TrustScoreField] + [RegisteredField] == FIELDS;
  }

  /** At most one status is compared, and exactly. */
  lemma StatusDiffIs(replayed: Record, current: Record, row: Option<Value>)
    requires replayed.Keys <= {StatusField} && (StatusField in replayed ==> !replayed[StatusField].NumberValue?)
    requires current == if row.Some? then map[StatusField := row.value] else map[]
    ensures Diff(replayed, current)
         == if StatusField in replayed && row != Some(replayed[StatusField])
            then [Discrepancy(StatusField, replayed[StatusField], row)] else []
  {
    DiffIs(replayed, current);
    assert Lookup(current, StatusField) == row;
  }

  function ActionOf(writes: bool, dryRun: bool): AuditAction {
    if writes then ReplayApplied else if dryRun then ReplayDryRun else ReplayNoop
  }

  // ---- Adoptions, custodies, escrows ------------------------------------------------------

  /** A live replay writes a replayed status that differs from the row's, and otherwise no
      table but the application log; its response and its audit row say so. */
  lemma AdoptionReplayAnswers(s: State, o: Options)
    requires Asks(s, o, AdoptionEntity)
    ensures var (s', response) := AggregateReplay(s, o);
            var id := o.aggregateId;
            var events := Slice(EventsOf(s.log, id), o.upToSequence);
            var fold := Replay(AdoptionEntity, map[], events);
            var row := if id in s.adoptions then Some(AdoptionValue(s.adoptions[id].status)) else None;
            var differs := StatusField in fold && row != Some(fold[StatusField]);
            var found := if differs then [Discrepancy(StatusField, fold[StatusField], row)] else [];
            var writes := differs && row.Some? && !o.dryRun;
            && response == Some(Response(AdoptionEntity, |events|, fold, found, writes))
            && s'.appLog
            == s.appLog + [Audit(ActionOf(writes, o.dryRun), AdoptionEntity, id, |events|, |found|)]
            && (if writes then
                  && id in s'.adoptions && AdoptionValue(s'.adoptions[id].status) == fold[StatusField]
                  && s' == s.(adoptions := s.adoptions[id := s.adoptions[id].(status := s'.adoptions[id].status)],
                              appLog := s'.appLog)
                else s' == s.(appLog := s'.appLog))
  {
    hide Diff, Replay;
    var id, current := o.aggregateId, FetchCurrentState(s, o.aggregateId, AdoptionEntity);
    var row := if id in s.adoptions then Some(AdoptionValue(s.adoptions[id].status)) else None;
    ReplayOfKind(AdoptionEntity, map[], Slice(EventsOf(s.log, id), o.upToSequence));
    StatusDiffIs(Replayed(s, o, AdoptionEntity), current, row);
    assert row.Some? ==> StatusField in current;
  }

  lemma CustodyReplayAnswers(s: State, o: Options)
    requires Asks(s, o, CustodyEntity)
    ensures var (s', response) := AggregateReplay(s, o);
            var id := o.aggregateId;
            var events := Slice(EventsOf(s.log, id), o.upToSequence);
            var fold := Replay(CustodyEntity, map[], events);
            var row := if id in s.custodies then Some(CustodyValue(s.custodies[id].status)) else None;
            var differs := StatusField in fold && row != Some(fold[StatusField]);
            var found := if differs then [Discrepancy(StatusField, fold[StatusField], row)] else [];
            var writes := differs && row.Some? && !o.dryRun;
            && response == Some(Response(CustodyEntity, |events|, fold, found, writes))
            && s'.appLog
            == s.appLog + [Audit(ActionOf(writes, o.dryRun), CustodyEntity, id, |events|, |found|)]
            && (if writes then
                  && id in s'.custodies && CustodyValue(s'.custodies[id].status) == fold[StatusField]
                  && s' == s.(custodies := s.custodies[id := s.custodies[id].(status := s'.custodies[id].status)],
                              appLog := s'.appLog)
                else s' == s.(appLog := s'.appLog))
  {
    hide Diff, Replay;
    var id, current := o.aggregateId, FetchCurrentState(s, o.aggregateId, CustodyEntity);
    var row := if id in s.custodies then Some(CustodyValue(s.custodies[id].status)) else None;
    ReplayOfKind(CustodyEntity, map[], Slice(EventsOf(s.log, id), o.upToSequence));
    StatusDiffIs(Replayed(s, o, CustodyEntity), current, row);
    assert row.Some? ==> StatusField in current;
  }

  lemma EscrowReplayAnswers(s: State, o: Options)
    requires Asks(s, o, EscrowEntity)
    ensures var (s', response) := AggregateReplay(s, o);
            var id := o.aggregateId;
            var events := Slice(EventsOf(s.log, id), o.upToSequence);
            var fold := Replay(EscrowEntity, map[], events);
            var row := if id in s.escrows then Some(EscrowValue(s.escrows[id].status)) else None;
            var differs := StatusField in fold && row != Some(fold[StatusField]);
            var found := if differs then [Discrepancy(StatusField, fold[StatusField], row)] else [];
            var writes := differs && row.Some? && !o.dryRun;
            && response == Some(Response(EscrowEntity, |events|, fold, found, writes))
            && s'.appLog
            == s.appLog + [Audit(ActionOf(writes, o.dryRun), EscrowEntity, id, |events|, |found|)]
            && (if writes then
                  && id in s'.escrows && EscrowValue(s'.escrows[id].status) == fold[StatusField]
                  && s' == s.(escrows := s.escrows[id := s.escrows[id].(status := s'.escrows[id].status)],
                              appLog := s'.appLog)
                else s' == s.(appLog := s'.appLog))
  {
    hide Diff, Replay;
    var id, current := o.aggregateId, FetchCurrentState(s, o.aggregateId, EscrowEntity);
    var row := if id in s.escrows then Some(EscrowValue(s.escrows[id].status)) else None;
    ReplayOfKind(EscrowEntity, map[], Slice(EventsOf(s.log, id), o.upToSequence));
    StatusDiffIs(Replayed(s, o, EscrowEntity), current, row);
    assert row.Some? ==> StatusField in current;
  }

  // ---- Users and pets ------------------------------------------------------------------------

  lemma ScoreDiffIs(replayed: real, current: Record, row: Option<real>)
    requires current == if row.Some? then UserRecord(row.value) else map[]
    ensures Diff(UserRecord(replayed), current)
         == if row.Some? && -0.000000001 < replayed - row.value < 0.000000001 then []
            else [Discrepancy(TrustScoreField, NumberValue(replayed),
                              if row.Some? then Some(NumberValue(row.value)) else None)]
  {
    DiffIs(UserRecord(replayed), current);
    assert TrustScoreField in UserRecord(replayed);
    assert Lookup(current, TrustScoreField) == if row.Some? then Some(NumberValue(row.value)) else None;
  }

  /** A user's replay starts from the row's score, or from nothing, and is written when it
      leaves the score by a billionth or more. */
  lemma UserReplayAnswers(s: State, o: Options) returns (score: real)
    requires Asks(s, o, UserEntity)
    ensures var (s', response) := AggregateReplay(s, o);
            var id := o.aggregateId;
            var events := Slice(EventsOf(s.log, id), o.upToSequence);
            var row := if id in s.users then Some(s.users[id].trustScore) else None;
            var differs := row.None? || score <= row.value - 0.000000001 || score >= row.value + 0.000000001;
            var current := if row.Some? then Some(NumberValue(row.value)) else None;
            var found := if differs then [Discrepancy(TrustScoreField, NumberValue(score), current)] else [];
            var writes := differs && row.Some? && !o.dryRun;
            && Replay(UserEntity, UserRecord(row.GetOr(0.0)), events) == UserRecord(score)
            && response == Some(Response(UserEntity, |events|, UserRecord(score), found, writes))
            && s'.appLog
            == s.appLog + [Audit(ActionOf(writes, o.dryRun), UserEntity, id, |events|, |found|)]
            && s' == s.(users := if writes then s.users[id := User(score)] else s.users, appLog := s'.appLog)
  {
    hide Diff, Replay;
    var id, current := o.aggregateId, FetchCurrentState(s, o.aggregateId, UserEntity);
    var row := if id in s.users then Some(s.users[id].trustScore) else None;
    var events := Slice(EventsOf(s.log, id), o.upToSequence);
    UserReplayKeepsScore(row.GetOr(0.0), events);
    score :| Replay(UserEntity, UserRecord(row.GetOr(0.0)), events) == UserRecord(score);
    assert row.Some? ==> TrustScoreField in current;
    assert InitialStateFor(UserEntity, current) == UserRecord(row.GetOr(0.0));
    ScoreDiffIs(score, current, row);
    assert TrustScoreField in UserRecord(score);
  }

  lemma FlagDiffIs(replayed: Record, registered: bool, present: bool)
    requires replayed == if registered then map[RegisteredField := FlagValue(true)] else map[]
    ensures Diff(replayed, map[RegisteredField := FlagValue(present)])
         == if registered && !present
            then [Discrepancy(RegisteredField, FlagValue(true), Some(FlagValue(false)))] else []
  {
    DiffIs(replayed, map[RegisteredField := FlagValue(present)]);
    assert Lookup(map[RegisteredField := FlagValue(present)], RegisteredField) == Some(FlagValue(present));
    if registered {
      assert RegisteredField in replayed && replayed[RegisteredField] == FlagValue(true);
    }
  }

  /** A pet's replay reports a registration whose pet is gone, and never writes. */
  lemma PetReplayAnswers(s: State, o: Options)
    requires Asks(s, o, PetEntity)
    ensures var (s', response) := AggregateReplay(s, o);
            var id := o.aggregateId;
            var events := Slice(EventsOf(s.log, id), o.upToSequence);
            var registered := exists k :: 0 <= k < |events| && events[k].eventType.PetRegistered?;
            var fold: Record := if registered then map[RegisteredField := FlagValue(true)] else map[];
            var found := if registered && id !in s.pets
                         then [Discrepancy(RegisteredField, FlagValue(true), Some(FlagValue(false)))] else [];
            && response == Some(Response(PetEntity, |events|, fold, found, false))
            && s' == s.(appLog := s.appLog + [Audit(if o.dryRun then ReplayDryRun else ReplayReadOnly, PetEntity, id,
                                                    |events|, |found|)])
  {
    var events := Slice(EventsOf(s.log, o.aggregateId), o.upToSequence);
    var registered := exists k :: 0 <= k < |events| && events[k].eventType.PetRegistered?;
    RegistrationReplays(events);
    FlagDiffIs(Replayed(s, o, PetEntity), registered, o.aggregateId in s.pets);
  }
}
