/** constants/payment.js: the transition table, and what every run of accepted transitions looks like. */
module PaymentStatus {
  import opened Wrappers

  datatype Status = Created | Pending | Authorized | Captured | Failed | Refunded | Cancelled

  function Transitions(from: Status): set<Status> {
    match from
    case Created => {Pending, Authorized, Captured, Failed, Cancelled}
    case Pending => {Authorized, Captured, Failed, Cancelled}
    case Authorized => {Captured, Failed, Refunded}
    case Captured => {Refunded}
    case Failed => {}
    case Cancelled => {}
    case Refunded => {}
  }

  predicate CanTransition(from: Option<Status>, to: Option<Status>) {
    if from.None? || to.None? then false
    else from == to || to.value in Transitions(from.value)
  }

  /** The table read by its targets: from where each status is reached. */
  lemma ReachedFrom(s: Status)
    ensures Created !in Transitions(s)
    ensures Pending in Transitions(s) <==> s == Created
    ensures Authorized in Transitions(s) <==> s in {Created, Pending}
    ensures Captured in Transitions(s) <==> s in {Created, Pending, Authorized}
    ensures Failed in Transitions(s) <==> s in {Created, Pending, Authorized}
    ensures Cancelled in Transitions(s) <==> s in {Created, Pending}
    ensures Refunded in Transitions(s) <==> s in {Authorized, Captured}
  {
  }

  datatype Change = Change(from: Status, to: Status)

  datatype State = State(status: Status, history: seq<Change>)

  /** transitionPaymentState: the same status again changes nothing, a move not in the table is refused. */
  function Move(s: State, next: Status): (State, bool) {
    if s.status == next then (s, true)
    else if !CanTransition(Some(s.status), Some(next)) then (s, false)
    else (State(next, s.history + [Change(s.status, next)]), true)
  }

  function Moves(s: State, nexts: seq<Status>): State {
    if nexts == [] then s else Move(Moves(s, nexts[..|nexts| - 1]), nexts[|nexts| - 1]).0
  }

  /** How far a status is from Created: every effective change goes up. */
  function Rank(s: Status): nat {
    match s
    case Created => 0
    case Pending => 1
    case Authorized => 2
    case Captured => 3
    case _ => 4
  }

  /** Changes that link up from Created to the status reached, each one allowed by the table. */
  ghost predicate Linked(history: seq<Change>, status: Status) {
    if history == [] then status == Created
    else
      var last := history[|history| - 1];
      last.to == status && last.to in Transitions(last.from) && Linked(history[..|history| - 1], last.from)
  }

  lemma {:induction false} LinkedIsShort(history: seq<Change>, status: Status)
    requires Linked(history, status)
    ensures |history| <= Rank(status) <= 4
  {
    if history != [] { LinkedIsShort(history[..|history| - 1], history[|history| - 1].from); }
  }

  lemma {:induction false} MovesStayLinked(s: State, nexts: seq<Status>)
    requires Linked(s.history, s.status)
    ensures var t := Moves(s, nexts); Linked(t.history, t.status) && s.history <= t.history
  {
    if nexts != [] {
      MovesStayLinked(s, nexts[..|nexts| - 1]);
      var t := Moves(s, nexts[..|nexts| - 1]);
      var u := Moves(s, nexts);
      if u != t { assert u.history[..|u.history| - 1] == t.history; }
    }
  }

  /**
   * Any number of requested changes has at most four effects, which form a chain from Created to the current status.
   */
  lemma AtMostFourChanges(nexts: seq<Status>)
    ensures var t := Moves(State(Created, []), nexts); Linked(t.history, t.status) && |t.history| <= 4
  {
    var t := Moves(State(Created, []), nexts);
    MovesStayLinked(State(Created, []), nexts);
    LinkedIsShort(t.history, t.status);
  }

  /** A captured payment stays captured or is refunded; failed, cancelled and refunded ones stay as they are. */
  lemma {:induction false} WhatFollows(s: State, nexts: seq<Status>)
    ensures s.status == Captured ==> Moves(s, nexts).status in {Captured, Refunded}
    ensures s.status in {Failed, Cancelled, Refunded} ==> Moves(s, nexts) == s
  {
    if nexts != [] { WhatFollows(s, nexts[..|nexts| - 1]); }
  }

  lemma {:induction false} MovesSplit(s: State, a: seq<Status>, b: seq<Status>)
    ensures Moves(s, a + b) == Moves(Moves(s, a), b)
  {
    if b == [] {
      assert a + b == a;
    } else {
      MovesSplit(s, a, b[..|b| - 1]);
      assert (a + b)[..|a + b| - 1] == a + b[..|b| - 1];
    }
  }

  /** An attempt that has failed at some point of a run is never captured later in it. */
  lemma FailedIsNeverCaptured(s: State, a: seq<Status>, b: seq<Status>)
    requires Moves(s, a).status == Failed
    ensures Moves(s, a + b).status == Failed
  {
    MovesSplit(s, a, b);
    WhatFollows(Moves(s, a), b);
  }
}
