/** The action state machine the hosted service enforces. */
module ActionMachine {
  import opened ActionLedger

  function AllowedFrom(s: Status): set<Status> {
    match s
    case Pending => {Running, Succeeded, Failed, AwaitingApproval, Denied, Rejected}
    case Running => {Running, Succeeded, Failed, AwaitingApproval, Denied}
    case AwaitingApproval => {Approved, Rejected, Denied}
    case Approved => {Running, Succeeded, Failed}
    case Failed => {Running, Succeeded, Failed, AwaitingApproval, Denied}
    case Succeeded => {}
    case Rejected => {}
    case Denied => {}
  }

  predicate Allowed(from: Status, to: Status) {
    to in AllowedFrom(from)
  }

  predicate Terminal(s: Status) {
    s == Succeeded || s == Rejected || s == Denied
  }

  /** The table as rules: nothing leaves a terminal status, nothing returns to pending,
      waiting for approval ends only in a decision, and only a row that waits is approved. */
  lemma MachineRules(from: Status, to: Status)
    ensures Allowed(from, to) <==>
      && !Terminal(from) && to != Pending
      && (from == AwaitingApproval ==> to in {Approved, Rejected, Denied})
      && (to == Approved ==> from == AwaitingApproval)
      && (to == Rejected ==> from in {Pending, AwaitingApproval})
      && (from == Approved ==> to in {Running, Succeeded, Failed})
  {
  }

  ghost predicate Lawful(trail: seq<Status>) {
    && (trail != [] ==> trail[0] == Pending)
    && forall i :: 0 <= i < |trail| - 1 ==> Allowed(trail[i], trail[i + 1])
  }

  /** A terminal status is the last one, and nothing runs or succeeds after waiting
      for approval unless it was approved in between. */
  lemma GateAndTerminals(trail: seq<Status>, i: nat, j: nat)
    requires Lawful(trail) && i < j < |trail|
    ensures !Terminal(trail[i])
    ensures trail[i] == AwaitingApproval && (trail[j] == Running || trail[j] == Succeeded) ==>
      exists m :: i < m < j && trail[m] == Approved
  {
    assert Allowed(trail[i], trail[i + 1]);
    if trail[i] == AwaitingApproval && (trail[j] == Running || trail[j] == Succeeded) {
      if i + 1 < j {
        assert Allowed(trail[i + 1], trail[i + 2]);
        assert trail[i + 1] == Approved;
      }
    }
  }
}
