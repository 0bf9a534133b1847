/** `AdoptionStateMachine`: the adoption transition map. */
module AdoptionStateMachine {
  import opened Schema

  function ValidTransitions(from: AdoptionStatus): set<AdoptionStatus> {
    match from
    case Requested => {AdoptionStatus.Pending, AdoptionStatus.Rejected}
    case Pending => {AdoptionStatus.Approved, AdoptionStatus.Rejected}
    case Approved => {AdoptionStatus.EscrowFunded, AdoptionStatus.Cancelled}
    case EscrowFunded => {AdoptionStatus.Completed, AdoptionStatus.Cancelled}
    case Completed => {}
    case Rejected => {}
    case Cancelled => {}
  }

  predicate CanTransition(from: AdoptionStatus, to: AdoptionStatus) {
    to in ValidTransitions(from)
  }

  /** The statuses that count as an adoption in progress. */
  predicate Open(status: AdoptionStatus) {
    status.Requested? || status.Pending? || status.Approved? || status.EscrowFunded?
  }

  /** How far a status is along the lifecycle. */
  function Rank(status: AdoptionStatus): nat {
    match status
    case Requested => 0
    case Pending => 1
    case Approved => 2
    case EscrowFunded => 3
    case _ => 4
  }

  /** Transitions climb and only leave open statuses; open is exactly what can be left. */
  lemma TransitionsClimb(from: AdoptionStatus)
    ensures forall to :: CanTransition(from, to) ==> Rank(from) < Rank(to) <= 4
    ensures Open(from) <==> exists to :: CanTransition(from, to)
  {
    if Open(from) {
      var to := match from
        case Requested => AdoptionStatus.Pending
        case Pending => AdoptionStatus.Approved
        case Approved => AdoptionStatus.EscrowFunded
        case _ => AdoptionStatus.Completed;
      assert CanTransition(from, to);
    }
  }

  /** An adoption goes from request to completion one stage at a time, may be rejected until
      it is approved, and cancelled from then on until it is completed. */
  lemma TransitionsAre(from: AdoptionStatus, to: AdoptionStatus)
    ensures CanTransition(from, to)
       <==> || (from, to) in {(AdoptionStatus.Requested, AdoptionStatus.Pending),
                              (AdoptionStatus.Pending, AdoptionStatus.Approved),
                              (AdoptionStatus.Approved, AdoptionStatus.EscrowFunded),
                              (AdoptionStatus.EscrowFunded, AdoptionStatus.Completed)}
            || (to.Rejected? && (from.Requested? || from.Pending?))
            || (to.Cancelled? && (from.Approved? || from.EscrowFunded?))
  {
  }
}

/** `CustodyStateMachine`: the custody transition map. */
module CustodyStateMachine {
  import opened Schema

  function ValidTransitions(from: CustodyStatus): set<CustodyStatus> {
    match from
    case Active => {CustodyStatus.Returned, CustodyStatus.Cancelled, CustodyStatus.Violation}
    case Returned => {}
    case Cancelled => {}
    case Violation => {}
    case Pending => {CustodyStatus.Active, CustodyStatus.Cancelled}
    case Completed => {}
  }

  predicate CanTransition(from: CustodyStatus, to: CustodyStatus) {
    to in ValidTransitions(from)
  }

  predicate Unsettled(status: CustodyStatus) {
    status.Pending? || status.Active?
  }

  function Rank(status: CustodyStatus): nat {
    match status
    case Pending => 0
    case Active => 1
    case _ => 2
  }

  lemma TransitionsClimb(from: CustodyStatus)
    ensures forall to :: CanTransition(from, to) ==> Rank(from) < Rank(to) <= 2 && !to.Completed?
    ensures Unsettled(from) <==> exists to :: CanTransition(from, to)
  {
    if Unsettled(from) {
      assert CanTransition(from, CustodyStatus.Cancelled);
    }
  }

  /** A custody is activated once, ends in a return or a violation only from there, and may be
      cancelled before or after. */
  lemma TransitionsAre(from: CustodyStatus, to: CustodyStatus)
    ensures CanTransition(from, to)
       <==> || (from.Pending? && to.Active?)
            || (from.Active? && (to.Returned? || to.Violation?))
            || ((from.Pending? || from.Active?) && to.Cancelled?)
  {
  }
}
