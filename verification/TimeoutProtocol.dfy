/**
 * Any number of scheduler replicas running the payment-expiry job against one order collection that others also write.
 */
module TimeoutProtocol {
  import opened OrderTimeout

  type Replica = nat

  /** Where a replica stands in the job: the rows still to do, and the order it is cancelling. */
  datatype Pc = Idle
              | Scanned(rows: seq<OrderId>)
              | Won(id: OrderId, rows: seq<OrderId>)
              | Loaded(id: OrderId, seen: Reservation, rows: seq<OrderId>)

  datatype Event = TimedOut(replica: Replica, id: OrderId, was: Order)
                 | Compensated(replica: Replica, id: OrderId)
                 | Abandoned(replica: Replica, id: OrderId)

  datatype State = State(orders: map<OrderId, Order>, stock: Units, pcs: map<Replica, Pc>, log: seq<Event>)

  function At(s: State, r: Replica): Pc { if r in s.pcs then s.pcs[r] else Idle }

  function Goto(s: State, r: Replica, pc: Pc): State { s.(pcs := s.pcs[r := pc]) }

  datatype Step = Scan(replica: Replica, now: int, rows: seq<OrderId>)
                | Update(replica: Replica)
                | Load(replica: Replica)
                | ReleaseStock(replica: Replica)
                | GiveUp(replica: Replica)
                | Other(id: OrderId, after: Order)

  function HeldBy(s: State, id: OrderId): Units { if id in s.orders then Holding(s.orders[id]) else multiset{} }

  predicate OthersMay(o: Order, after: Order) {
    && (o.workflow != Created ==> after.workflow != Created)
    && after.timedOut == o.timedOut && after.held == o.held
    && (o.reservation == Released || o.timedOut ==> after.reservation == o.reservation)
  }

  /**
   * When a step can be taken. Other writers may do anything but return an order to Created, touch the stock of an order
   * timed out, or take more than is in stock.
   */
  ghost predicate Enabled(s: State, step: Step) {
    match step
    case Scan(r, now, rows) =>
      At(s, r).Idle? && forall id :: id in rows <==> id in s.orders && Expired(s.orders[id], now)
    case Update(r) => At(s, r).Scanned? && At(s, r).rows != [] && At(s, r).rows[0] in s.orders
    case Load(r) => At(s, r).Won? && At(s, r).id in s.orders
    case ReleaseStock(r) => At(s, r).Loaded? && At(s, r).id in s.orders
    case GiveUp(r) => true
    case Other(id, after) =>
      Holding(after) <= s.stock + HeldBy(s, id) &&
      (if id in s.orders then OthersMay(s.orders[id], after) else !after.timedOut)
  }

  /** One step. A step of other writers moves the stock by what the order's holding changes. */
  ghost function Next(s: State, step: Step): State
    requires Enabled(s, step)
  {
    match step
    case Scan(r, now, rows) => Goto(s, r, Scanned(rows))
    case Update(r) =>
      var id, rest := At(s, r).rows[0], At(s, r).rows[1..];
      if Guard(s.orders[id]) then
        Goto(s, r, Won(id, rest)).(orders := s.orders[id := TimeOut(s.orders[id])],
                                   log := s.log + [TimedOut(r, id, s.orders[id])])
      else Goto(s, r, Scanned(rest))
    case Load(r) => Goto(s, r, Loaded(At(s, r).id, s.orders[At(s, r).id].reservation, At(s, r).rows))
    case ReleaseStock(r) =>
      var id := At(s, r).id;
      Goto(s, r, Scanned(At(s, r).rows)).(orders := s.orders[id := Release(s.orders[id])],
                                          stock := s.stock + Returned(s.orders[id], At(s, r).seen),
                                          log := s.log + [Compensated(r, id)])
    case GiveUp(r) =>
      if At(s, r).Won? || At(s, r).Loaded? then
        Goto(s, r, Scanned(At(s, r).rows)).(log := s.log + [Abandoned(r, At(s, r).id)])
      else Goto(s, r, Idle)
    case Other(id, after) =>
      s.(orders := s.orders[id := after], stock := s.stock + HeldBy(s, id) - Holding(after))
  }

  ghost predicate Initial(s: State) {
    s.pcs == map[] && s.log == [] && forall id :: id in s.orders ==> !s.orders[id].timedOut
  }

  ghost predicate Run(s: State, steps: seq<Step>)
    decreases |steps|, 0
  {
    steps == [] || (Run(s, steps[..|steps| - 1]) && Enabled(End(s, steps[..|steps| - 1]), steps[|steps| - 1]))
  }

  ghost function End(s: State, steps: seq<Step>): State
    requires Run(s, steps)
    decreases |steps|, 1
  {
    if steps == [] then s else Next(End(s, steps[..|steps| - 1]), steps[|steps| - 1])
  }

  // ---------- the invariant ----------

  ghost predicate Wins(log: seq<Event>, i: nat, r: Replica, id: OrderId) {
    i < |log| && log[i].TimedOut? && log[i].replica == r && log[i].id == id
  }

  ghost predicate WonBy(log: seq<Event>, r: Replica, id: OrderId) { exists i: nat :: Wins(log, i, r, id) }

  predicate Closes(e: Event, id: OrderId) { !e.TimedOut? && e.id == id }

  /** Each order has one winner at most; what a replica does about an order comes after its own win, and once. */
  ghost predicate LogOk(log: seq<Event>) {
    && (forall i, j :: 0 <= i < j < |log| && log[i].TimedOut? && log[j].TimedOut? ==> log[i].id != log[j].id)
    && (forall i :: 0 <= i < |log| && log[i].TimedOut? ==> Guard(log[i].was))
    && (forall j :: 0 <= j < |log| && !log[j].TimedOut? ==>
          exists i: nat :: i < j && Wins(log, i, log[j].replica, log[j].id))
    && (forall i, j :: 0 <= i < j < |log| && !log[i].TimedOut? && !log[j].TimedOut? ==> log[i].id != log[j].id)
  }

  ghost predicate HasWinner(log: seq<Event>, id: OrderId) {
    exists i :: 0 <= i < |log| && log[i].TimedOut? && log[i].id == id
  }

  ghost predicate Closed(log: seq<Event>, id: OrderId) { exists i :: 0 <= i < |log| && Closes(log[i], id) }

  predicate Busy(pc: Pc, id: OrderId) { (pc.Won? || pc.Loaded?) && pc.id == id }

  ghost predicate OrdersOk(s: State) {
    && (forall id :: id in s.orders ==> (s.orders[id].timedOut <==> HasWinner(s.log, id)))
    && (forall id :: id in s.orders && s.orders[id].timedOut ==> s.orders[id].workflow != Created)
    && (forall i :: 0 <= i < |s.log| ==> s.log[i].id in s.orders)
    && (forall i :: 0 <= i < |s.log| && s.log[i].Compensated? ==> s.orders[s.log[i].id].reservation == Released)
  }

  ghost predicate PcsOk(s: State) {
    && (forall r, id :: Busy(At(s, r), id) ==> !Closed(s.log, id) && WonBy(s.log, r, id))
    && (forall r :: At(s, r).Loaded? ==> At(s, r).id in s.orders && At(s, r).seen == s.orders[At(s, r).id].reservation)
    && (forall i :: 0 <= i < |s.log| && s.log[i].TimedOut? && !Closed(s.log, s.log[i].id) ==>
          Busy(At(s, s.log[i].replica), s.log[i].id))
  }

  ghost predicate Inv(s: State) { LogOk(s.log) && OrdersOk(s) && PcsOk(s) }

  lemma InitialInv(s: State)
    requires Initial(s)
    ensures Inv(s)
  {
    forall r ensures At(s, r) == Idle { }
  }

  /** A step that leaves the log, the flags and this replica's open order alone keeps the invariant. */
  lemma QuietStep(s: State, t: State, r: Replica, pc: Pc)
    requires Inv(s) && t == Goto(s, r, pc)
    requires (pc.Won? || pc.Loaded?) == (At(s, r).Won? || At(s, r).Loaded?)
    requires pc.Won? || pc.Loaded? ==> pc.id == At(s, r).id
    requires pc.Loaded? ==> pc.id in s.orders && pc.seen == s.orders[pc.id].reservation
    ensures Inv(t)
  {
    forall q ensures At(t, q) == if q == r then pc else At(s, q) { }
    forall q, id ensures Busy(At(t, q), id) <==> Busy(At(s, q), id) { }
  }

  /** Appending an event: what the log says of winners and closed orders. */
  lemma LogGrows(log: seq<Event>, e: Event)
    ensures forall i, r, id :: Wins(log, i, r, id) ==> Wins(log + [e], i, r, id)
    ensures e.TimedOut? ==> Wins(log + [e], |log|, e.replica, e.id)
    ensures forall id :: HasWinner(log + [e], id) <==> HasWinner(log, id) || (e.TimedOut? && e.id == id)
    ensures forall id :: Closed(log + [e], id) <==> Closed(log, id) || Closes(e, id)
  {
    var now := log + [e];
    forall id
      ensures HasWinner(now, id) <==> HasWinner(log, id) || (e.TimedOut? && e.id == id)
      ensures Closed(now, id) <==> Closed(log, id) || Closes(e, id)
    {
      if HasWinner(log, id) { var i :| 0 <= i < |log| && log[i].TimedOut? && log[i].id == id; assert now[i] == log[i]; }
      if Closed(log, id) { var i :| 0 <= i < |log| && Closes(log[i], id); assert Closes(now[i], id); }
      if Closes(e, id) { assert Closes(now[|log|], id); }
      if e.TimedOut? && e.id == id { assert now[|log|] == e; }
    }
  }

  lemma WinKeepsLog(log: seq<Event>, r: Replica, id: OrderId, was: Order)
    requires LogOk(log) && !HasWinner(log, id) && Guard(was)
    ensures LogOk(log + [TimedOut(r, id, was)])
  {
    LogGrows(log, TimedOut(r, id, was));
    var now := log + [TimedOut(r, id, was)];
    forall j | 0 <= j < |now| && !now[j].TimedOut?
      ensures exists i: nat :: i < j && Wins(now, i, now[j].replica, now[j].id)
    {
      var i: nat :| i < j && Wins(log, i, log[j].replica, log[j].id);
      assert Wins(now, i, now[j].replica, now[j].id);
    }
  }

  lemma CloseKeepsLog(log: seq<Event>, e: Event, i: nat)
    requires LogOk(log) && !e.TimedOut? && !Closed(log, e.id) && Wins(log, i, e.replica, e.id)
    ensures LogOk(log + [e])
  {
    LogGrows(log, e);
    var now := log + [e];
    forall j | 0 <= j < |now| && !now[j].TimedOut?
      ensures exists k: nat :: k < j && Wins(now, k, now[j].replica, now[j].id)
    {
      if j < |log| {
        var k: nat :| k < j && Wins(log, k, log[j].replica, log[j].id);
        assert Wins(now, k, now[j].replica, now[j].id);
      } else {
        assert Wins(now, i, now[j].replica, now[j].id);
      }
    }
    forall k, j | 0 <= k < j < |now| && !now[k].TimedOut? && !now[j].TimedOut? ensures now[k].id != now[j].id {
      assert !Closes(log[k], e.id);
    }
  }

  lemma ClosedHasWinner(log: seq<Event>, id: OrderId)
    requires LogOk(log) && Closed(log, id)
    ensures HasWinner(log, id)
  {
    var j: nat :| j < |log| && Closes(log[j], id);
    var i: nat :| i < j && Wins(log, i, log[j].replica, log[j].id);
    assert log[i].id == id;
  }

  /** The state after a replica's guarded update has gone through. */
  ghost predicate WinningStep(s: State, t: State, r: Replica, id: OrderId, rows: seq<OrderId>) {
    && !(At(s, r).Won? || At(s, r).Loaded?) && id in s.orders && Guard(s.orders[id])
    && t.pcs == s.pcs[r := Won(id, rows)]
    && t.log == s.log + [TimedOut(r, id, s.orders[id])]
    && t.orders == s.orders[id := TimeOut(s.orders[id])]
  }

  lemma WinKeepsOrders(s: State, t: State, r: Replica, id: OrderId, rows: seq<OrderId>)
    requires Inv(s) && WinningStep(s, t, r, id, rows)
    ensures OrdersOk(t)
  {
    LogGrows(s.log, TimedOut(r, id, s.orders[id]));
  }

  lemma WinKeepsWinners(s: State, t: State, r: Replica, id: OrderId, rows: seq<OrderId>, q: Replica, x: OrderId)
    requires Inv(s) && WinningStep(s, t, r, id, rows) && !Closed(s.log, id) && Busy(At(t, q), x)
    ensures !Closed(t.log, x) && WonBy(t.log, q, x)
  {
    LogGrows(s.log, TimedOut(r, id, s.orders[id]));
    if q == r {
      assert Wins(t.log, |s.log|, q, x);
    } else {
      assert Busy(At(s, q), x) && WonBy(s.log, q, x);
      var i: nat :| Wins(s.log, i, q, x);
      assert Wins(t.log, i, q, x);
    }
  }

  lemma WinKeepsBusy(s: State, t: State, r: Replica, id: OrderId, rows: seq<OrderId>, i: nat)
    requires Inv(s) && WinningStep(s, t, r, id, rows)
    requires i < |t.log| && t.log[i].TimedOut? && !Closed(t.log, t.log[i].id)
    ensures Busy(At(t, t.log[i].replica), t.log[i].id)
  {
    LogGrows(s.log, TimedOut(r, id, s.orders[id]));
    if i < |s.log| { assert t.log[i] == s.log[i] && Busy(At(s, s.log[i].replica), s.log[i].id); }
  }

  lemma WinKeepsPcs(s: State, t: State, r: Replica, id: OrderId, rows: seq<OrderId>)
    requires Inv(s) && WinningStep(s, t, r, id, rows) && !Closed(s.log, id)
    ensures PcsOk(t)
  {
    forall q, x | Busy(At(t, q), x) ensures !Closed(t.log, x) && WonBy(t.log, q, x) {
      WinKeepsWinners(s, t, r, id, rows, q, x);
    }
    forall q ensures At(t, q) == if q == r then Won(id, rows) else At(s, q) { }
    forall i | 0 <= i < |t.log| && t.log[i].TimedOut? && !Closed(t.log, t.log[i].id)
      ensures Busy(At(t, t.log[i].replica), t.log[i].id)
    {
      WinKeepsBusy(s, t, r, id, rows, i);
    }
  }

  lemma WinStep(s: State, t: State, r: Replica, id: OrderId, rows: seq<OrderId>)
    requires Inv(s) && WinningStep(s, t, r, id, rows)
    ensures Inv(t)
  {
    assert !HasWinner(s.log, id);
    if Closed(s.log, id) { ClosedHasWinner(s.log, id); }
    WinKeepsLog(s.log, r, id, s.orders[id]);
    WinKeepsOrders(s, t, r, id, rows);
    WinKeepsPcs(s, t, r, id, rows);
  }

  /** The state after compensating, or giving up on, the order a replica has won. */
  ghost predicate ClosingStep(s: State, t: State, e: Event) {
    && !e.TimedOut? && Busy(At(s, e.replica), e.id) && e.id in s.orders
    && t.pcs == s.pcs[e.replica := Scanned(At(s, e.replica).rows)]
    && t.log == s.log + [e]
    && t.orders == if e.Compensated? then s.orders[e.id := Release(s.orders[e.id])] else s.orders
  }

  lemma CloseKeepsOrders(s: State, t: State, e: Event)
    requires Inv(s) && ClosingStep(s, t, e)
    ensures OrdersOk(t)
  {
    LogGrows(s.log, e);
  }

  /** No other replica is busy with an order that one replica is about to close. */
  lemma OnlyOneBusy(s: State, q: Replica, r: Replica, id: OrderId)
    requires Inv(s) && Busy(At(s, q), id) && Busy(At(s, r), id)
    ensures q == r
  {
    assert WonBy(s.log, q, id) && WonBy(s.log, r, id);
    var i: nat :| Wins(s.log, i, q, id);
    var k: nat :| Wins(s.log, k, r, id);
    OneWinner(s.log, i, k);
  }

  lemma CloseKeepsPcs(s: State, t: State, e: Event)
    requires Inv(s) && ClosingStep(s, t, e)
    ensures PcsOk(t)
  {
    LogGrows(s.log, e);
    forall q ensures At(t, q) == if q == e.replica then Scanned(At(s, e.replica).rows) else At(s, q) { }
    forall q, x | Busy(At(t, q), x) ensures !Closed(t.log, x) && WonBy(t.log, q, x) {
      assert Busy(At(s, q), x) && WonBy(s.log, q, x);
      var k: nat :| Wins(s.log, k, q, x);
      assert Wins(t.log, k, q, x);
      if x == e.id { OnlyOneBusy(s, q, e.replica, x); }
    }
    forall k | 0 <= k < |t.log| && t.log[k].TimedOut? && !Closed(t.log, t.log[k].id)
      ensures Busy(At(t, t.log[k].replica), t.log[k].id)
    {
      assert t.log[k] == s.log[k] && Busy(At(s, s.log[k].replica), s.log[k].id);
    }
    forall q | At(t, q).Loaded? ensures At(t, q).id in t.orders && At(t, q).seen == t.orders[At(t, q).id].reservation {
      var x := At(t, q).id;
      assert q != e.replica && At(s, q) == At(t, q);
      if x == e.id { OnlyOneBusy(s, q, e.replica, x); }
      assert x in s.orders && t.orders[x] == s.orders[x];
    }
  }

  lemma CloseStep(s: State, t: State, e: Event)
    requires Inv(s) && ClosingStep(s, t, e)
    ensures Inv(t)
  {
    assert WonBy(s.log, e.replica, e.id);
    var i: nat :| Wins(s.log, i, e.replica, e.id);
    CloseKeepsLog(s.log, e, i);
    CloseKeepsOrders(s, t, e);
    CloseKeepsPcs(s, t, e);
  }

  lemma OneWinner(log: seq<Event>, i: nat, k: nat)
    requires LogOk(log) && i < |log| && k < |log| && log[i].TimedOut? && log[k].TimedOut? && log[i].id == log[k].id
    ensures i == k
  {
  }

  lemma OtherKeepsOrders(s: State, id: OrderId, after: Order)
    requires Inv(s) && Enabled(s, Other(id, after))
    ensures OrdersOk(Next(s, Other(id, after)))
  {
    var t := Next(s, Other(id, after));
    if id !in s.orders { assert !HasWinner(s.log, id); }
    forall i | 0 <= i < |t.log| && t.log[i].Compensated? ensures t.orders[t.log[i].id].reservation == Released {
      assert s.orders[s.log[i].id].reservation == Released;
    }
  }

  lemma OtherKeepsPcs(s: State, id: OrderId, after: Order)
    requires Inv(s) && Enabled(s, Other(id, after))
    ensures PcsOk(Next(s, Other(id, after)))
  {
    var t := Next(s, Other(id, after));
    forall q ensures At(t, q) == At(s, q) { }
    forall q | At(t, q).Loaded?
      ensures At(t, q).id in t.orders && At(t, q).seen == t.orders[At(t, q).id].reservation
    {
      assert Busy(At(s, q), At(s, q).id) && WonBy(s.log, q, At(s, q).id);
      assert HasWinner(s.log, At(s, q).id);
    }
  }

  /** A write by anyone else. */
  lemma OtherStep(s: State, id: OrderId, after: Order)
    requires Inv(s) && Enabled(s, Other(id, after))
    ensures Inv(Next(s, Other(id, after)))
  {
    OtherKeepsOrders(s, id, after);
    OtherKeepsPcs(s, id, after);
  }

  lemma StepKeepsInv(s: State, step: Step)
    requires Inv(s) && Enabled(s, step)
    ensures Inv(Next(s, step))
  {
    var t := Next(s, step);
    match step
    case Scan(r, now, rows) => QuietStep(s, t, r, Scanned(rows));
    case Update(r) =>
      var id, rest := At(s, r).rows[0], At(s, r).rows[1..];
      if Guard(s.orders[id]) { WinStep(s, t, r, id, rest); } else { QuietStep(s, t, r, Scanned(rest)); }
    case Load(r) =>
      QuietStep(s, t, r, Loaded(At(s, r).id, s.orders[At(s, r).id].reservation, At(s, r).rows));
    case ReleaseStock(r) =>
      CloseStep(s, t, Compensated(r, At(s, r).id));
    case GiveUp(r) =>
      if At(s, r).Won? || At(s, r).Loaded? {
        var id := At(s, r).id;
        assert Busy(At(s, r), id) && WonBy(s.log, r, id);
        var i: nat :| Wins(s.log, i, r, id);
        CloseStep(s, t, Abandoned(r, id));
      } else {
        QuietStep(s, t, r, Idle);
      }
    case Other(id, after) => OtherStep(s, id, after);
  }

  /** One order's holding exchanged for another against the stock in hand. */
  lemma Exchange(orders: map<OrderId, Order>, stock: Units, id: OrderId, after: Order)
    requires Holding(after) <= stock + (if id in orders then Holding(orders[id]) else multiset{})
    ensures var before := if id in orders then Holding(orders[id]) else multiset{};
            stock + before - Holding(after) + Held(orders[id := after]) == stock + Held(orders)
  {
    HeldUpdate(orders, id, after);
  }

  /** The stock in hand and the stock held by orders add up as before, product by product, whatever step is taken. */
  lemma StepKeepsStock(s: State, step: Step)
    requires Inv(s) && Enabled(s, step)
    ensures Next(s, step).stock + Held(Next(s, step).orders) == s.stock + Held(s.orders)
  {
    match step
    case Update(r) =>
      var id := At(s, r).rows[0];
      Exchange(s.orders, s.stock, id, TimeOut(s.orders[id]));
      assert s.stock + Holding(s.orders[id]) - Holding(s.orders[id]) == s.stock;
    case ReleaseStock(r) =>
      var id := At(s, r).id;
      Exchange(s.orders, s.stock, id, Release(s.orders[id]));
    case Other(id, after) =>
      Exchange(s.orders, s.stock, id, after);
    case _ =>
  }

  lemma {:induction false} RunKeepsInv(s: State, steps: seq<Step>)
    requires Initial(s) && Run(s, steps)
    ensures Inv(End(s, steps))
    ensures End(s, steps).stock + Held(End(s, steps).orders) == s.stock + Held(s.orders)
    decreases |steps|
  {
    if steps == [] {
      InitialInv(s);
    } else {
      RunKeepsInv(s, steps[..|steps| - 1]);
      StepKeepsInv(End(s, steps[..|steps| - 1]), steps[|steps| - 1]);
      StepKeepsStock(End(s, steps[..|steps| - 1]), steps[|steps| - 1]);
    }
  }

  // ---------- what every run of the protocol gives ----------

  ghost function Cancellations(log: seq<Event>, id: OrderId): nat {
    if log == [] then 0
    else Cancellations(log[..|log| - 1], id) + if log[|log| - 1].TimedOut? && log[|log| - 1].id == id then 1 else 0
  }

  ghost function Compensations(log: seq<Event>, id: OrderId): nat {
    if log == [] then 0
    else Compensations(log[..|log| - 1], id) + if log[|log| - 1].Compensated? && log[|log| - 1].id == id then 1 else 0
  }

  ghost predicate Makes(e: Event, id: OrderId) { e.Compensated? && e.id == id }

  ghost predicate HasCompensation(log: seq<Event>, id: OrderId) { exists i :: 0 <= i < |log| && Makes(log[i], id) }

  lemma CompensationGrows(log: seq<Event>, e: Event, id: OrderId)
    ensures HasCompensation(log + [e], id) <==> HasCompensation(log, id) || Makes(e, id)
  {
    var now := log + [e];
    if HasCompensation(log, id) { var i :| 0 <= i < |log| && Makes(log[i], id); assert Makes(now[i], id); }
    if Makes(e, id) { assert Makes(now[|log|], id); }
  }

  lemma {:induction false} CountsAreSmall(log: seq<Event>, id: OrderId)
    requires LogOk(log)
    ensures Compensations(log, id) <= Cancellations(log, id) <= 1
    ensures Cancellations(log, id) == 1 <==> HasWinner(log, id)
    ensures Compensations(log, id) == 1 <==> HasCompensation(log, id)
    ensures Compensations(log, id) == 1 ==> Closed(log, id)
  {
    if log != [] {
      var init, e := log[..|log| - 1], log[|log| - 1];
      assert log == init + [e];
      PrefixOk(log);
      CountsAreSmall(init, id);
      LogGrows(init, e);
      CompensationGrows(init, e, id);
      if e.id == id {
        if e.TimedOut? {
          assert !HasWinner(init, id);
        } else {
          ClosedHasWinner(log, id);
          forall i | 0 <= i < |init| ensures !Closes(init[i], id) { assert init[i] == log[i]; }
        }
      }
    }
  }

  lemma PrefixOk(log: seq<Event>)
    requires LogOk(log) && log != []
    ensures LogOk(log[..|log| - 1])
  {
    var init := log[..|log| - 1];
    forall j | 0 <= j < |init| && !init[j].TimedOut?
      ensures exists i: nat :: i < j && Wins(init, i, init[j].replica, init[j].id)
    {
      var i: nat :| i < j && Wins(log, i, log[j].replica, log[j].id);
      assert Wins(init, i, init[j].replica, init[j].id);
    }
  }

  /**
   * In every run an order is timed out and compensated at most once, and compensated by the replica that timed it out.
   */
  lemma AtMostOnce(s: State, steps: seq<Step>, id: OrderId)
    requires Initial(s) && Run(s, steps)
    ensures var log := End(s, steps).log;
            && Compensations(log, id) <= Cancellations(log, id) <= 1
            && (forall i, j :: 0 <= i < j < |log| && log[i].id == log[j].id ==>
                  !(log[i].TimedOut? && log[j].TimedOut?) && !(log[i].Compensated? && log[j].Compensated?))
            && forall j :: 0 <= j < |log| && log[j].Compensated? ==>
                 exists i: nat :: i < j && Wins(log, i, log[j].replica, log[j].id)
  {
    RunKeepsInv(s, steps);
    CountsAreSmall(End(s, steps).log, id);
  }

  /** Before an entry that compensates or gives up on an order there is one by the same replica that timed it out. */
  lemma OwnWinComesFirst(s: State, steps: seq<Step>, j: nat) returns (i: nat)
    requires Initial(s) && Run(s, steps) && j < |End(s, steps).log| && !End(s, steps).log[j].TimedOut?
    ensures var log := End(s, steps).log;
            && i < j && log[i].TimedOut? && log[i].replica == log[j].replica && log[i].id == log[j].id
  {
    RunKeepsInv(s, steps);
    var log := End(s, steps).log;
    i :| i < j && Wins(log, i, log[j].replica, log[j].id);
  }

  /** In every run, an order that was timed out was Created and not paid when the update went through. */
  lemma OnlyUnpaidTimedOut(s: State, steps: seq<Step>, i: nat)
    requires Initial(s) && Run(s, steps) && i < |End(s, steps).log| && End(s, steps).log[i].TimedOut?
    ensures var was := End(s, steps).log[i].was; was.workflow == Created && was.payment != Paid
  {
    RunKeepsInv(s, steps);
  }

  /**
   * A replica's update cancels the order of its row exactly when it is Created and not paid at that moment, whatever
   * the scan saw. The entry it logs holds the order as it was; nothing else moves.
   */
  lemma UpdateDecides(s: State, r: Replica, id: OrderId)
    requires Enabled(s, Update(r)) && id == At(s, r).rows[0]
    ensures var t, was := Next(s, Update(r)), s.orders[id];
            && t.stock == s.stock
            && if was.workflow == Created && was.payment != Paid
               then t.orders == s.orders[id := was.(workflow := Cancelled, timedOut := true)] &&
                    t.log == s.log + [TimedOut(r, id, was)] && At(t, r) == Won(id, At(s, r).rows[1..])
               else t.orders == s.orders && t.log == s.log && At(t, r) == Scanned(At(s, r).rows[1..])
  {
  }

  /** A step taken while an order is paid, or no longer Created, does not time it out. */
  lemma PaidIsSafe(s: State, before: seq<Step>, after: seq<Step>, id: OrderId)
    requires Run(s, after) && after != [] && before == after[..|after| - 1]
    requires id in End(s, before).orders
    requires var o := End(s, before).orders[id]; o.payment == Paid || o.workflow != Created
    ensures Cancellations(End(s, after).log, id) == Cancellations(End(s, before).log, id)
    ensures var was, now := End(s, before).log, End(s, after).log;
            was <= now && forall i :: |was| <= i < |now| ==> !(now[i].TimedOut? && now[i].id == id)
  {
    var was, now := End(s, before), End(s, after);
    if now.log != was.log { assert now.log[..|now.log| - 1] == was.log; }
  }

  /** From the state after `steps` on, and as long as `more` runs, the order is paid or no longer Created. */
  ghost predicate SafeDuring(s: State, steps: seq<Step>, more: seq<Step>, id: OrderId) {
    more == [] ||
    (var init := more[..|more| - 1];
     && SafeDuring(s, steps, init, id) && Run(s, steps + init)
     && id in End(s, steps + init).orders
     && var o := End(s, steps + init).orders[id]; o.payment == Paid || o.workflow != Created)
  }

  /** However the replicas go on, an order that has been paid and stays paid is never timed out any more. */
  lemma {:induction false} StaysSafe(s: State, steps: seq<Step>, more: seq<Step>, id: OrderId)
    requires Run(s, steps) && Run(s, steps + more) && SafeDuring(s, steps, more, id)
    ensures Cancellations(End(s, steps + more).log, id) == Cancellations(End(s, steps).log, id)
    ensures var was, now := End(s, steps).log, End(s, steps + more).log;
            was <= now && forall i :: |was| <= i < |now| ==> !(now[i].TimedOut? && now[i].id == id)
  {
    if more == [] {
      assert steps + more == steps;
    } else {
      var init := more[..|more| - 1];
      StaysSafe(s, steps, init, id);
      assert steps + init == (steps + more)[..|steps + more| - 1];
      PaidIsSafe(s, steps + init, steps + more, id);
    }
  }

  /** Every order timed out is compensated, given up on, or still in the hands of the replica that timed it out. */
  lemma NothingForgotten(s: State, steps: seq<Step>, id: OrderId)
    requires Initial(s) && Run(s, steps) && id in End(s, steps).orders && End(s, steps).orders[id].timedOut
    ensures var t := End(s, steps);
            || t.orders[id].reservation == Released
            || (exists i :: 0 <= i < |t.log| && t.log[i].Abandoned? && t.log[i].id == id)
            || (exists r :: Busy(At(t, r), id))
  {
    RunKeepsInv(s, steps);
    var t := End(s, steps);
    var i: nat :| i < |t.log| && t.log[i].TimedOut? && t.log[i].id == id;
    if Closed(t.log, id) {
      var j: nat :| j < |t.log| && Closes(t.log[j], id);
    } else {
      assert Busy(At(t, t.log[i].replica), id);
    }
  }
}
