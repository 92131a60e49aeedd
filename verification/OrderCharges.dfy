/** How often an order is charged, and exactly when it is charged twice. */
module OrderCharges {
  import opened Runs
  import opened Common
  import opened OrderModel
  import opened OrderPipeline

  ghost predicate ChargedAtMostOnce(s: State) {
    forall o: OrderId :: s.charged[o] <= 1
  }

  /** A finalizer charges an order that one which then threw had charged before. */
  predicate Recharges(s: State, a: Action) {
    a.Charge? && a.fin in s.finals && s.finals[a.fin].Charging? && s.wasted[s.finals[a.fin].order] > 0
  }

  /** Every wasted charge, and one whose outcome is about to be recorded, was made. */
  ghost predicate WastedWereMade(s: State) {
    && (forall o: OrderId :: s.wasted[o] <= s.charged[o])
    && (forall f :: f in s.finals && s.finals[f].Settling? ==>
        s.wasted[s.finals[f].order] < s.charged[s.finals[f].order])
  }

  /** What a step charges and wastes. */
  lemma StepCharges(s: State, a: Action)
    ensures Step(s, a).charged ==
      if a.Charge? && a.fin in s.finals && s.finals[a.fin].Charging? then s.charged + multiset{s.finals[a.fin].order}
          else s.charged
    ensures Step(s, a).wasted ==
      if a.FinalizerFails? && a.fin in s.finals && s.finals[a.fin].Settling?
          then s.wasted + multiset{s.finals[a.fin].order} else s.wasted
  {}

  /** A settling finalizer after a step was settling before or has just charged. */
  lemma SettlersCharged(s: State, a: Action, f: nat)
    requires f in Step(s, a).finals && Step(s, a).finals[f].Settling?
    ensures f in s.finals && s.finals[f].order == Step(s, a).finals[f].order
    ensures s.finals[f] == Step(s, a).finals[f] || (a.Charge? && a.fin == f && s.finals[f].Charging?)
    ensures a.FinalizerFails? ==> a.fin != f
  {
    if IsFinal(a) { FinalSettlersCharged(s, a, f); } else { OutsideFinalizers(s, a); }
  }

  lemma FinalSettlersCharged(s: State, a: Action, f: nat)
    requires IsFinal(a) && f in FinalStep(s, a).finals && FinalStep(s, a).finals[f].Settling?
    ensures f in s.finals && s.finals[f].order == FinalStep(s, a).finals[f].order
    ensures s.finals[f] == FinalStep(s, a).finals[f] || (a.Charge? && a.fin == f && s.finals[f].Charging?)
    ensures a.FinalizerFails? ==> a.fin != f
  {
    match a
    case Take(_, _) =>
    case FindOrder(_) =>
    case Charge(_) =>
    case MarkStatus(_) =>
    case PublishStatus(_) =>
    case FinalizerFails(_) =>
  }

  lemma {:induction false} StepKeepsWasted(s: State, a: Action)
    requires WastedWereMade(s) && OnePerOrder(s.finals)
    ensures WastedWereMade(Step(s, a))
  {
    var s' := Step(s, a);
    StepCharges(s, a);
    forall f | f in s'.finals && s'.finals[f].Settling?
      ensures s'.wasted[s'.finals[f].order] < s'.charged[s'.finals[f].order]
    {
      SettlersCharged(s, a, f);
    }
  }

  /** More of a multiset: at most one of each exactly when it was so and the one added is new. */
  lemma AddsOne(m: multiset<OrderId>, o: OrderId)
    ensures (forall x: OrderId :: (m + multiset{o})[x] <= 1) <==> (forall x: OrderId :: m[x] <= 1) && m[o] == 0
  {
    var n := m + multiset{o};
    if forall x: OrderId :: n[x] <= 1 {
      assert n[o] <= 1;
      forall x: OrderId ensures m[x] <= 1 { assert n[x] <= 1; }
    }
  }

  /** One step: an order is charged a second time exactly when the step recharges. */
  lemma SecondCharge(s: State, a: Action)
    requires Inv(s) && WastedWereMade(s)
    ensures ChargedAtMostOnce(Step(s, a)) <==> ChargedAtMostOnce(s) && !Recharges(s, a)
  {
    StepCharges(s, a);
    if a.Charge? && a.fin in s.finals && s.finals[a.fin].Charging? {
      var o := s.finals[a.fin].order;
      AddsOne(s.charged, o);
      assert ChargeOk(s, o) && s.wasted[o] <= s.charged[o];
    }
  }

  ghost predicate NeverRecharges(acts: seq<Action>) {
    acts == [] || (NeverRecharges(acts[..|acts| - 1]) && !Recharges(Run(INIT, acts[..|acts| - 1]), acts[|acts| - 1]))
  }

  /**
    In every interleaving, cancels included: each order is charged at most once
    if and only if no finalizer charges an order again that one which threw
    between charge and markStatus had charged.
  */
  lemma {:induction false} ChargedOnceExactly(acts: seq<Action>)
    ensures WastedWereMade(Run(INIT, acts))
    ensures ChargedAtMostOnce(Run(INIT, acts)) <==> NeverRecharges(acts)
  {
    if acts == [] {
    } else {
      var s, a := Run(INIT, acts[..|acts| - 1]), acts[|acts| - 1];
      ChargedOnceExactly(acts[..|acts| - 1]);
      InitInv();
      Reachable(INIT, acts[..|acts| - 1]);
      StepKeepsWasted(s, a);
      SecondCharge(s, a);
    }
  }

  /** How many charges there are in all: those wasted, and at most one more. */
  lemma ChargedOnce(acts: seq<Action>, o: OrderId)
    ensures var s := Run(INIT, acts); s.wasted[o] <= s.charged[o] <= s.wasted[o] + 1
  {
    InitInv();
    Reachable(INIT, acts);
    ChargedOnceExactly(acts);
    assert ChargeOk(Run(INIT, acts), o);
  }

  // ----- a run that charges twice -----

  /** A message of the order is taken, the order found pending, and charged. */
  lemma {:induction false} TakeAndCharge(acts: seq<Action>, r: Placement) returns (more: seq<Action>)
    requires var s := Run(INIT, acts); s.db == Placed(r) && s.finals == map[] && s.topic[0] > 0
    ensures var s, s' := Run(INIT, acts), Run(INIT, more);
      && s'.db == s.db && s'.log == s.log && s'.events == s.events && s'.charged == s.charged + multiset{0}
      && s'.finals == map[0 := Settling(0, ChargeSucceeds(r.payment, r.total))]
  {
    var s := Run(INIT, acts);
    FoldThen(Step, INIT, acts, Take(0, 0));
    var taken := acts + [Take(0, 0)];
    FoldThen(Step, INIT, taken, FindOrder(0));
    var found := taken + [FindOrder(0)];
    FoldThen(Step, INIT, found, Charge(0));
    ChargesOne(Run(INIT, found), r);
    more := found + [Charge(0)];
  }

  /** A finalizer charges and throws, the message is delivered again, and the order is charged again. */
  lemma {:induction false} ChargedTwice(r: Placement) returns (acts: seq<Action>)
    ensures Run(INIT, acts).charged[0] == 2
  {
    var sent := ReachesSent(r);
    var once := TakeAndCharge(sent, r);
    FoldThen(Step, INIT, once, FinalizerFails(0));
    FailsOne(Run(INIT, once));
    var failed := once + [FinalizerFails(0)];
    FoldThen(Step, INIT, failed, Redeliver(0));
    acts := TakeAndCharge(failed + [Redeliver(0)], r);
  }
}
