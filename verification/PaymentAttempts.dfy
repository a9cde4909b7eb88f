/** paymentController.js: creating and verifying Razorpay attempts, as atomic steps on one collection. */
module PaymentAttempts {
  import opened Wrappers
  import opened PaymentStatus

  datatype Gateway = Razorpay | PhonePe

  /** A scope is a checkout group, or an order that is in none. */
  datatype Payment = Payment(scope: nat, gateway: Gateway, gatewayOrderId: string, customer: nat, state: State,
                             attempt: nat)

  datatype CreateReply = NotEligible | Reused(gatewayOrderId: string) | GatewayFailed | Initiated(attempt: nat)

  datatype VerifyReply = NotFound | Forbidden | AlreadyVerified | InvalidSignature | Verified | BadTransition

  predicate Open(p: Payment) { p.state.status == Created || p.state.status == Pending }

  function CountIn(ps: seq<Payment>, scope: nat): nat {
    if ps == [] then 0 else CountIn(ps[..|ps| - 1], scope) + if ps[|ps| - 1].scope == scope then 1 else 0
  }

  /** The latest open payment of a scope; payments are kept in order of creation. */
  function LatestOpen(ps: seq<Payment>, scope: nat): (r: Option<nat>)
    ensures r.None? ==> forall i :: 0 <= i < |ps| && ps[i].scope == scope ==> !Open(ps[i])
    ensures r.Some? ==> r.value < |ps| && ps[r.value].scope == scope && Open(ps[r.value])
                        && forall i :: r.value < i < |ps| && ps[i].scope == scope ==> !Open(ps[i])
  {
    if ps == [] then None
    else if ps[|ps| - 1].scope == scope && Open(ps[|ps| - 1]) then Some(|ps| - 1)
    else LatestOpen(ps[..|ps| - 1], scope)
  }

  /** The attempt that is stored for an order the gateway has made: pending, and linked to its start. */
  function NewAttempt(scope: nat, gatewayOrderId: string, customer: nat, attempt: nat): Payment {
    Payment(scope, Razorpay, gatewayOrderId, customer, State(Pending, [Change(Created, Pending)]), attempt)
  }

  /** `made` is the gateway's new order; there is none when the amount is not positive or the gateway fails. */
  function Create(ps: seq<Payment>, scope: nat, customer: nat, eligible: bool, made: Option<string>)
    : (seq<Payment>, CreateReply)
  {
    var open := LatestOpen(ps, scope);
    if !eligible then (ps, NotEligible)
    else if open.Some? && ps[open.value].gateway == Razorpay then (ps, Reused(ps[open.value].gatewayOrderId))
    else if made.None? then (ps, GatewayFailed)
    else
      var attempt := CountIn(ps, scope) + 1;
      (ps + [NewAttempt(scope, made.value, customer, attempt)], Initiated(attempt))
  }

  /** The payment that is found for a gateway order: the first one that carries its id. */
  ghost predicate FirstFor(ps: seq<Payment>, gatewayOrderId: string, i: nat)
    requires i < |ps|
  {
    ps[i].gatewayOrderId == gatewayOrderId && forall k :: 0 <= k < i ==> ps[k].gatewayOrderId != gatewayOrderId
  }

  function Find(ps: seq<Payment>, gatewayOrderId: string): (r: Option<nat>)
    ensures r.Some? ==> r.value < |ps| && FirstFor(ps, gatewayOrderId, r.value)
    ensures r.None? ==> forall p :: p in ps ==> p.gatewayOrderId != gatewayOrderId
  {
    if ps == [] then None
    else if ps[0].gatewayOrderId == gatewayOrderId then Some(0)
    else
      var r := Find(ps[1..], gatewayOrderId);
      if r.Some? then Some(r.value + 1) else None
  }

  /** One call of transitionPaymentState on a stored payment. */
  function Transition(ps: seq<Payment>, i: nat, next: Status): seq<Payment>
    requires i < |ps|
  {
    ps[i := ps[i].(state := Move(ps[i].state, next).0)]
  }

  function Verify(ps: seq<Payment>, gatewayOrderId: string, user: nat, signed: bool): (seq<Payment>, VerifyReply) {
    var found := Find(ps, gatewayOrderId);
    if found.None? then (ps, NotFound)
    else
      var p, next := ps[found.value], if signed then Captured else Failed;
      if p.customer != user then (ps, Forbidden)
      else if p.state.status == Captured then (ps, AlreadyVerified)
      else if !Move(p.state, next).1 then (ps, BadTransition)
      else (Transition(ps, found.value, next), if signed then Verified else InvalidSignature)
  }

  /** The latest payment of a scope that is not done with yet. */
  ghost predicate LatestOpenAt(ps: seq<Payment>, scope: nat, i: int) {
    && 0 <= i < |ps| && ps[i].scope == scope && ps[i].state.status in {Created, Pending}
    && forall k :: i < k < |ps| && ps[k].scope == scope ==> ps[k].state.status !in {Created, Pending}
  }

  /** Where the payments of a scope stand. */
  ghost function Places(ps: seq<Payment>, scope: nat): set<nat> { set i | 0 <= i < |ps| && ps[i].scope == scope }

  lemma {:induction false} CountIs(ps: seq<Payment>, scope: nat)
    ensures CountIn(ps, scope) == |Places(ps, scope)|
  {
    if ps != [] {
      var n := |ps| - 1;
      CountIs(ps[..n], scope);
      assert Places(ps, scope) == Places(ps[..n], scope) + if ps[n].scope == scope then {n} else {};
    }
  }

  /** The answers to a request for a new attempt: an open one of Razorpay is used again, else one more is stored. */
  lemma CreateMeans(ps: seq<Payment>, scope: nat, customer: nat, eligible: bool, made: Option<string>)
    ensures var (after, reply) := Create(ps, scope, customer, eligible, made);
            && (reply == NotEligible <==> !eligible)
            && (reply.Reused? <==> eligible && exists i :: LatestOpenAt(ps, scope, i) && ps[i].gateway == Razorpay)
            && (reply.Reused? ==>
                  exists i :: LatestOpenAt(ps, scope, i) && ps[i].gatewayOrderId == reply.gatewayOrderId)
            && (!reply.Initiated? ==> after == ps)
            && (reply.Initiated? ==>
                  && |after| == |ps| + 1 && after[..|ps|] == ps && made.Some?
                  && reply.attempt == |Places(ps, scope)| + 1
                  && var p := after[|ps|];
                     && p.scope == scope && p.gateway == Razorpay && p.customer == customer
                     && p.gatewayOrderId == made.value && p.state.status == Pending && p.attempt == reply.attempt)
  {
    CountIs(ps, scope);
    var open := LatestOpen(ps, scope);
    if open.Some? { assert LatestOpenAt(ps, scope, open.value); }
  }

  /**
   * Every answer to a verification with its condition on the payment found, and the payments after it: captured by a
   * right signature of its customer, failed by a wrong one, untouched otherwise.
   */
  lemma VerifyMeans(ps: seq<Payment>, id: string, user: nat, signed: bool, i: nat)
    requires i < |ps| && FirstFor(ps, id, i)
    ensures var (after, reply) := Verify(ps, id, user, signed);
            var p, s := ps[i], ps[i].state.status;
            && reply != NotFound
            && (reply == Forbidden <==> p.customer != user)
            && (reply == AlreadyVerified <==> p.customer == user && s == Captured)
            && (reply == Verified <==> p.customer == user && signed && s in {Created, Pending, Authorized})
            && (reply == InvalidSignature <==>
                  p.customer == user && !signed && s in {Created, Pending, Authorized, Failed})
            && after ==
               if reply == Verified
               then ps[i := p.(state := State(Captured, p.state.history + [Change(s, Captured)]))]
               else if reply == InvalidSignature && s != Failed
               then ps[i := p.(state := State(Failed, p.state.history + [Change(s, Failed)]))]
               else ps
  {
    var found := Find(ps, id);
    assert ps[i] in ps;
    assert found.value == i;
    assert ps[i := ps[i]] == ps;
    ReachedFrom(ps[i].state.status);
  }

  lemma VerifyUnknown(ps: seq<Payment>, id: string, user: nat, signed: bool)
    ensures Verify(ps, id, user, signed).1 == NotFound <==> forall p :: p in ps ==> p.gatewayOrderId != id
    ensures Verify(ps, id, user, signed).1 == NotFound ==> Verify(ps, id, user, signed).0 == ps
  {
    if Find(ps, id).Some? { assert ps[Find(ps, id).value] in ps; }
  }

  class PaymentDesk {
    var payments: seq<Payment>

    method CreateRazorpayOrder(scope: nat, customer: nat, eligible: bool, made: Option<string>)
        returns (reply: CreateReply)
      modifies this
      ensures (payments, reply) == Create(old(payments), scope, customer, eligible, made)
    {
      if !eligible { return NotEligible; }
      var existingOpen := LatestOpen(payments, scope);
      if existingOpen.Some? && payments[existingOpen.value].gateway == Razorpay {
        return Reused(payments[existingOpen.value].gatewayOrderId);
      }
      var attemptCount := 1;
      for i := 0 to |payments|
        invariant attemptCount == CountIn(payments[..i], scope) + 1
      {
        assert payments[..i + 1][..i] == payments[..i];
        if payments[i].scope == scope { attemptCount := attemptCount + 1; }
      }
      assert payments[..|payments|] == payments;
      if made.None? { return GatewayFailed; }
      payments := payments + [NewAttempt(scope, made.value, customer, attemptCount)];
      reply := Initiated(attemptCount);
    }

    method TransitionPayment(i: nat, next: Status) returns (ok: bool)
      requires i < |payments|
      modifies this
      ensures var p := old(payments)[i];
              && (ok <==> next == p.state.status || next in Transitions(p.state.status))
              && payments == (if !ok || next == p.state.status then old(payments)
                              else old(payments)[i := p.(state :=
                                     State(next, p.state.history + [Change(p.state.status, next)]))])
      ensures ok == Move(old(payments)[i].state, next).1 && payments == Transition(old(payments), i, next)
    {
      var p := payments[i];
      if p.state.status == next { return true; }
      if !CanTransition(Some(p.state.status), Some(next)) { return false; }
      payments := payments[i := p.(state := State(next, p.state.history + [Change(p.state.status, next)]))];
      ok := true;
    }

    method VerifyRazorpayPayment(gatewayOrderId: string, user: nat, signed: bool) returns (reply: VerifyReply)
      modifies this
      ensures (payments, reply) == Verify(old(payments), gatewayOrderId, user, signed)
    {
      var found := Find(payments, gatewayOrderId);
      if found.None? { return NotFound; }
      if payments[found.value].customer != user { return Forbidden; }
      if payments[found.value].state.status == Captured { return AlreadyVerified; }
      var ok := TransitionPayment(found.value, if signed then Captured else Failed);
      if !ok { assert payments == old(payments); }
      reply := if !ok then BadTransition else if signed then Verified else InvalidSignature;
    }
  }

  // ---------- one open attempt, numbered 1..n ----------

  ghost predicate OneOpen(ps: seq<Payment>) {
    forall i, j :: 0 <= i < j < |ps| && ps[i].scope == ps[j].scope ==> !(Open(ps[i]) && Open(ps[j]))
  }

  /** The k-th payment of a scope in order of creation carries the attempt number k. */
  ghost predicate Numbered(ps: seq<Payment>) {
    forall i :: 0 <= i < |ps| ==> ps[i].attempt == CountIn(ps[..i], ps[i].scope) + 1
  }

  ghost predicate Histories(ps: seq<Payment>) {
    forall i :: 0 <= i < |ps| ==> Linked(ps[i].state.history, ps[i].state.status)
  }

  ghost predicate AllRazorpay(ps: seq<Payment>) { forall i :: 0 <= i < |ps| ==> ps[i].gateway == Razorpay }

  ghost predicate Inv(ps: seq<Payment>) { OneOpen(ps) && Numbered(ps) && Histories(ps) }

  /** A new attempt is opened beside an open one exactly when the latest open one belongs to another gateway. */
  lemma CreateKeepsOneOpenIff(ps: seq<Payment>, scope: nat, customer: nat, id: string)
    requires OneOpen(ps)
    ensures OneOpen(Create(ps, scope, customer, true, Some(id)).0)
       <==> LatestOpen(ps, scope).None? || ps[LatestOpen(ps, scope).value].gateway == Razorpay
  {
    var open, after := LatestOpen(ps, scope), Create(ps, scope, customer, true, Some(id)).0;
    if open.Some? && ps[open.value].gateway != Razorpay {
      assert Open(after[open.value]) && Open(after[|ps|]);
    }
  }

  /** A pending PhonePe attempt stays open beside the Razorpay attempt that is created after it. */
  lemma SecondOpenAttempt()
    ensures var open := Payment(0, PhonePe, "a", 0, State(Pending, [Change(Created, Pending)]), 1);
            && Inv([open]) && CanTransition(Some(Created), Some(Pending))
            && Create([open], 0, 0, true, Some("b")).1 == Initiated(2)
            && !OneOpen(Create([open], 0, 0, true, Some("b")).0)
  {
    var h := [Change(Created, Pending)];
    var open := Payment(0, PhonePe, "a", 0, State(Pending, h), 1);
    assert h[..0] == [] && Linked([], Created) && Linked(h, Pending);
    assert [open][..0] == [] && CountIn([open], 0) == 1 && LatestOpen([open], 0) == Some(0);
    CreateKeepsOneOpenIff([open], 0, 0, "b");
  }

  lemma CreateKeepsInv(ps: seq<Payment>, scope: nat, customer: nat, eligible: bool, made: Option<string>)
    requires Inv(ps) && AllRazorpay(ps)
    ensures var after := Create(ps, scope, customer, eligible, made).0; Inv(after) && AllRazorpay(after)
  {
    var after := Create(ps, scope, customer, eligible, made).0;
    if eligible && made.Some? { CreateKeepsOneOpenIff(ps, scope, customer, made.value); }
    if after != ps {
      forall i | 0 <= i < |after| ensures after[i].attempt == CountIn(after[..i], after[i].scope) + 1 {
        assert after[..i] == ps[..i];
      }
      var h := [Change(Created, Pending)];
      assert h[..0] == [] && Linked([], Created);
      assert Linked(h, Pending);
    }
  }

  lemma {:induction false} CountUpdate(ps: seq<Payment>, i: nat, p: Payment, scope: nat)
    requires i < |ps| && p.scope == ps[i].scope
    ensures CountIn(ps[i := p], scope) == CountIn(ps, scope)
  {
    var n := |ps| - 1;
    if i < n {
      CountUpdate(ps[..n], i, p, scope);
      assert ps[i := p][..n] == ps[..n][i := p];
    } else {
      assert ps[i := p][..n] == ps[..n];
    }
  }

  lemma TransitionKeepsInv(ps: seq<Payment>, i: nat, next: Status)
    requires Inv(ps) && i < |ps|
    ensures Inv(Transition(ps, i, next))
    ensures AllRazorpay(ps) ==> AllRazorpay(Transition(ps, i, next))
  {
    var after := Transition(ps, i, next);
    assert Open(after[i]) ==> Open(ps[i]);
    forall k | 0 <= k < |after| ensures after[k].attempt == CountIn(after[..k], after[k].scope) + 1 {
      if i < k {
        assert after[..k] == ps[..k][i := after[i]];
        CountUpdate(ps[..k], i, after[i], ps[k].scope);
      } else {
        assert after[..k] == ps[..k];
      }
    }
    assert Moves(ps[i].state, [next]) == after[i].state by {
      assert [next][..0] == [] && Moves(ps[i].state, []) == ps[i].state;
    }
    MovesStayLinked(ps[i].state, [next]);
  }

  // ---------- whole runs ----------

  datatype Op = CreateOp(scope: nat, customer: nat, eligible: bool, made: Option<string>)
              | VerifyOp(gatewayOrderId: string, user: nat, signed: bool)
              | GatewayOp(index: nat, next: Status)

  /** The two handlers, and a status reported by the gateway. */
  function Step(ps: seq<Payment>, op: Op): seq<Payment> {
    match op
    case CreateOp(scope, customer, eligible, made) => Create(ps, scope, customer, eligible, made).0
    case VerifyOp(gatewayOrderId, user, signed) => Verify(ps, gatewayOrderId, user, signed).0
    case GatewayOp(i, next) => if i < |ps| then Transition(ps, i, next) else ps
  }

  function Run(ops: seq<Op>): seq<Payment> { if ops == [] then [] else Step(Run(ops[..|ops| - 1]), ops[|ops| - 1]) }

  lemma StepKeepsInv(ps: seq<Payment>, op: Op)
    requires Inv(ps) && AllRazorpay(ps)
    ensures Inv(Step(ps, op)) && AllRazorpay(Step(ps, op))
  {
    match op
    case CreateOp(scope, customer, eligible, made) => CreateKeepsInv(ps, scope, customer, eligible, made);
    case VerifyOp(gatewayOrderId, user, signed) =>
      var found := Find(ps, gatewayOrderId);
      if found.Some? { TransitionKeepsInv(ps, found.value, if signed then Captured else Failed); }
    case GatewayOp(i, next) => if i < |ps| { TransitionKeepsInv(ps, i, next); }
  }

  /**
   * In every run: at most one open payment in a scope, attempts numbered 1 to n, each with a linked history of at most
   * four changes.
   */
  lemma {:induction false} RunKeepsInv(ops: seq<Op>)
    ensures Inv(Run(ops)) && AllRazorpay(Run(ops))
    ensures forall i :: 0 <= i < |Run(ops)| ==> |Run(ops)[i].state.history| <= 4
  {
    if ops != [] {
      RunKeepsInv(ops[..|ops| - 1]);
      StepKeepsInv(Run(ops[..|ops| - 1]), ops[|ops| - 1]);
    }
    forall i | 0 <= i < |Run(ops)| ensures |Run(ops)[i].state.history| <= 4 {
      LinkedIsShort(Run(ops)[i].state.history, Run(ops)[i].state.status);
    }
  }

  // ---------- what captures a payment ----------

  /** A signed verification of a payment by its customer, or the gateway's own report. */
  predicate Captures(op: Op, p: Payment, i: nat) {
    op == VerifyOp(p.gatewayOrderId, p.customer, true) || op == GatewayOp(i, Status.Captured)
  }

  /** A step keeps every payment's place, gateway order and customer, and captures it only if it is one of those two. */
  lemma StepCaptures(ps: seq<Payment>, op: Op, i: nat)
    requires i < |Step(ps, op)|
    ensures i >= |ps| ==> Step(ps, op)[i].state.status == Pending
    ensures i < |ps| ==>
      var p, q := ps[i], Step(ps, op)[i];
      && q.gatewayOrderId == p.gatewayOrderId && q.customer == p.customer
      && (q.state.status == Captured ==> p.state.status == Captured || Captures(op, p, i))
  {
    if op.VerifyOp? && Find(ps, op.gatewayOrderId).Some? {
      VerifyMeans(ps, op.gatewayOrderId, op.user, op.signed, Find(ps, op.gatewayOrderId).value);
    }
  }

  /**
   * In every run a payment is captured only if its own customer verified it with a right signature, or the gateway
   * reported it captured.
   */
  lemma {:induction false} CapturedOnlyIf(ops: seq<Op>, i: nat)
    requires i < |Run(ops)| && Run(ops)[i].state.status == Captured
    ensures exists k :: 0 <= k < |ops| && Captures(ops[k], Run(ops)[i], i)
  {
    var n := |ops| - 1;
    StepCaptures(Run(ops[..n]), ops[n], i);
    if !Captures(ops[n], Run(ops)[i], i) {
      CapturedOnlyIf(ops[..n], i);
      var k :| 0 <= k < n && Captures(ops[..n][k], Run(ops[..n])[i], i);
      assert Captures(ops[k], Run(ops)[i], i);
    }
  }

  /** Without reports of the gateway, a signed verification by the customer is behind every captured payment. */
  lemma CapturedWasSigned(ops: seq<Op>, i: nat)
    requires i < |Run(ops)| && Run(ops)[i].state.status == Captured
    requires forall op :: op in ops ==> !op.GatewayOp?
    ensures exists k :: 0 <= k < |ops| && ops[k] == VerifyOp(Run(ops)[i].gatewayOrderId, Run(ops)[i].customer, true)
  {
    CapturedOnlyIf(ops, i);
    var k :| 0 <= k < |ops| && Captures(ops[k], Run(ops)[i], i);
    assert ops[k] in ops;
  }
}
