/** When the verdicts finalizers publish agree with what the orders became. */
module OrderEvents {
  import opened Runs
  import opened Common
  import opened OrderModel
  import opened OrderPipeline
  import opened OrderCharges

  /** The order did become Paid or Failed, as announced. */
  ghost predicate Became(db: Db, o: OrderId, paid: bool) {
    o in db.orders && Settlement(paid) in db.orders[o].history
  }

  /** Every verdict published, and every verdict about to be, is in its order's history. */
  ghost predicate Agreed(s: State) {
    EventsAgree(s) && AnnouncersAgree(s)
  }

  /** markStatus finds the order no longer pending and changes nothing; the verdict is announced all the same. */
  predicate Overtaken(s: State, a: Action) {
    && a.MarkStatus? && a.fin in s.finals && s.finals[a.fin].Settling?
    && s.finals[a.fin].order in s.db.orders && !IsPending(s.db, s.finals[a.fin].order)
  }

  /** An order being charged or settled is not Paid or Failed yet. */
  ghost predicate NotSettledYet(s: State) {
    forall f :: f in s.finals && (s.finals[f].Charging? || s.finals[f].Settling?) ==>
      s.finals[f].order in s.db.orders && !Settled(s.db.orders[s.finals[f].order])
  }

  /** Only markStatus makes an order Paid or Failed. */
  lemma SettledByMark(s: State, a: Action, o: OrderId)
    requires o in s.db.orders && o in Step(s, a).db.orders && !Settled(s.db.orders[o])
    requires !(a.MarkStatus? && a.fin in s.finals && s.finals[a.fin].order == o)
    ensures !Settled(Step(s, a).db.orders[o])
  {
    StepEffect(s, a);
    var e := Effect(s, a);
    if e == [] {
    } else {
      assert e[..0] == [] && ApplyAll(s.db, e) == Apply(s.db, e[0]);
    }
  }

  /** Where a finalizer that charges or settles came from. */
  lemma ChargersCome(s: State, a: Action, f: nat)
    requires f in Step(s, a).finals && (Step(s, a).finals[f].Charging? || Step(s, a).finals[f].Settling?)
    ensures var o := Step(s, a).finals[f].order;
      f in s.finals && s.finals[f].order == o && (s.finals[f].Reading? ==> IsPending(s.db, o))
          && !s.finals[f].Announcing?
  {
    if IsFinal(a) { FinalChargersCome(s, a, f); } else { OutsideFinalizers(s, a); }
  }

  lemma FinalChargersCome(s: State, a: Action, f: nat)
    requires IsFinal(a) && f in FinalStep(s, a).finals
    requires FinalStep(s, a).finals[f].Charging? || FinalStep(s, a).finals[f].Settling?
    ensures var o := FinalStep(s, a).finals[f].order;
      f in s.finals && s.finals[f].order == o && (s.finals[f].Reading? ==> IsPending(s.db, o))
          && !s.finals[f].Announcing?
  {
    match a
    case Take(_, _) =>
    case FindOrder(_) =>
    case Charge(_) =>
    case MarkStatus(_) =>
    case PublishStatus(_) =>
    case FinalizerFails(_) =>
  }

  lemma PendingNotSettled(o: Order)
    requires OrderOk(o) && o.status == Pending
    ensures !Settled(o)
  {
    assert |o.history| == 1;
  }

  lemma {:induction false} StepKeepsNotSettled(s: State, a: Action)
    requires Inv(s) && NotSettledYet(s)
    ensures NotSettledYet(Step(s, a))
  {
    var s' := Step(s, a);
    forall f | f in s'.finals && (s'.finals[f].Charging? || s'.finals[f].Settling?)
      ensures s'.finals[f].order in s'.db.orders && !Settled(s'.db.orders[s'.finals[f].order])
    {
      var o := s'.finals[f].order;
      ChargersCome(s, a, f);
      if s.finals[f].Reading? { PendingNotSettled(s.db.orders[o]); }
      KeepsUnsettled(s, a, f, o);
    }
  }

  lemma {:induction false} KeepsUnsettled(s: State, a: Action, f: nat, o: OrderId)
    requires DbOk(s.db) && OnePerOrder(s.finals) && f in s.finals && s.finals[f].order == o
    requires o in s.db.orders && !Settled(s.db.orders[o])
    requires f in Step(s, a).finals && !Step(s, a).finals[f].Announcing?
    ensures o in Step(s, a).db.orders && !Settled(Step(s, a).db.orders[o])
  {
    if a.MarkStatus? && a.fin == f {
    } else {
      StepKeepsDb(s, a);
      SettledByMark(s, a, o);
    }
  }

  lemma BecameStays(db: Db, db': Db, o: OrderId, paid: bool)
    requires DbEvolves(db, db') && Became(db, o, paid)
    ensures Became(db', o, paid)
  {
    assert Evolves(db.orders[o], db'.orders[o]);
  }

  /** What a step publishes: the next event of an announcing finalizer. */
  function Publishes(s: State, a: Action): seq<Event> {
    if a.PublishStatus? && a.fin in s.finals && s.finals[a.fin].Announcing? then
      var c := s.finals[a.fin];
      [if c.left <= 1 then Verdict(c.order, c.paid) else StatusChanged(c.order, c.paid)]
    else []
  }

  lemma StepPublishes(s: State, a: Action)
    ensures Step(s, a).events == s.events + Publishes(s, a)
  {}

  lemma AnnouncersCome(s: State, a: Action, f: nat)
    requires f in Step(s, a).finals && Step(s, a).finals[f].Announcing?
    ensures CameFrom(s, a, f, Step(s, a).finals[f])
  {
    if IsFinal(a) { FinalAnnouncersCome(s, a, f); } else { OutsideFinalizers(s, a); }
  }

  /** An announcing finalizer announced the same before, or has just recorded it. */
  predicate CameFrom(s: State, a: Action, f: nat, c: Final)
    requires c.Announcing?
  {
    && f in s.finals && s.finals[f].order == c.order
    && ((s.finals[f].Announcing? && s.finals[f].paid == c.paid)
        || (a.MarkStatus? && a.fin == f && s.finals[f].Settling? && s.finals[f].paid == c.paid
            && c.order in s.db.orders))
  }

  lemma FinalAnnouncersCome(s: State, a: Action, f: nat)
    requires IsFinal(a) && f in FinalStep(s, a).finals && FinalStep(s, a).finals[f].Announcing?
    ensures CameFrom(s, a, f, FinalStep(s, a).finals[f])
  {
    match a
    case Take(_, _) =>
    case FindOrder(_) =>
    case Charge(_) =>
    case MarkStatus(_) =>
    case PublishStatus(_) =>
    case FinalizerFails(_) =>
  }

  lemma MarkAgrees(s: State, f: nat)
    requires f in s.finals && s.finals[f].Settling? && s.finals[f].order in s.db.orders
    requires !Settled(s.db.orders[s.finals[f].order])
    ensures var s' := FinalStep(s, MarkStatus(f));
      && f in s'.finals && s'.finals[f].Announcing?
      && (Became(s'.db, s'.finals[f].order, s'.finals[f].paid) <==> IsPending(s.db, s.finals[f].order))
  {
    var s' := FinalStep(s, MarkStatus(f));
    var o := s.finals[f].order;
    if IsPending(s.db, o) {
      assert s'.db.orders[o].history[|s.db.orders[o].history|] == Settlement(s.finals[f].paid);
    } else {
      assert s'.db.orders[o] == s.db.orders[o];
    }
  }

  ghost predicate EventsAgree(s: State) {
    forall i :: 0 <= i < |s.events| ==> Became(s.db, s.events[i].order, s.events[i].paid)
  }

  ghost predicate AnnouncersAgree(s: State) {
    forall f :: f in s.finals && s.finals[f].Announcing? ==> Became(s.db, s.finals[f].order, s.finals[f].paid)
  }

  lemma {:induction false} StepKeepsEvents(s: State, a: Action)
    requires Inv(s) && EventsAgree(s) && AnnouncersAgree(s)
    ensures EventsAgree(Step(s, a))
  {
    StepKeepsDb(s, a);
    StepPublishes(s, a);
    MoreEventsAgree(s, Step(s, a), Publishes(s, a));
  }

  lemma MoreEventsAgree(s: State, s': State, more: seq<Event>)
    requires DbEvolves(s.db, s'.db) && EventsAgree(s) && s'.events == s.events + more
    requires forall i :: 0 <= i < |more| ==> Became(s.db, more[i].order, more[i].paid)
    ensures EventsAgree(s')
  {
    forall i | 0 <= i < |s'.events| ensures Became(s'.db, s'.events[i].order, s'.events[i].paid) {
      assert s'.events[i] == if i < |s.events| then s.events[i] else more[i - |s.events|];
      BecameStays(s.db, s'.db, s'.events[i].order, s'.events[i].paid);
    }
  }

  lemma {:induction false} StepKeepsAnnouncers(s: State, a: Action)
    requires Inv(s) && NotSettledYet(s) && AnnouncersAgree(s)
    ensures AnnouncersAgree(Step(s, a)) <==> !Overtaken(s, a)
  {
    var s' := Step(s, a);
    if Overtaken(s, a) {
      MarkAgrees(s, a.fin);
    } else {
      forall f | f in s'.finals && s'.finals[f].Announcing?
        ensures Became(s'.db, s'.finals[f].order, s'.finals[f].paid)
      {
        AnnouncerAgrees(s, a, f);
      }
    }
  }

  lemma {:induction false} AnnouncerAgrees(s: State, a: Action, f: nat)
    requires Inv(s) && NotSettledYet(s) && AnnouncersAgree(s) && !Overtaken(s, a)
    requires f in Step(s, a).finals && Step(s, a).finals[f].Announcing?
    ensures var c := Step(s, a).finals[f]; Became(Step(s, a).db, c.order, c.paid)
  {
    AnnouncersCome(s, a, f);
    if s.finals[f].Announcing? {
      StepKeepsDb(s, a);
      BecameStays(s.db, Step(s, a).db, s.finals[f].order, s.finals[f].paid);
    } else {
      MarkAgrees(s, f);
    }
  }

  /** One step: the verdicts go on agreeing exactly when it is not an overtaken markStatus. */
  lemma {:induction false} StepAgrees(s: State, a: Action)
    requires Inv(s) && NotSettledYet(s) && Agreed(s)
    ensures Agreed(Step(s, a)) <==> !Overtaken(s, a)
  {
    StepKeepsEvents(s, a);
    StepKeepsAnnouncers(s, a);
  }

  ghost predicate NeverOvertaken(acts: seq<Action>) {
    forall i :: 0 <= i < |acts| ==> !Overtaken(Run(INIT, acts[..i]), acts[i])
  }

  ghost predicate AlwaysAgreed(acts: seq<Action>) {
    forall k :: 0 <= k <= |acts| ==> Agreed(Run(INIT, acts[..k]))
  }

  lemma {:induction false} NotSettledUpTo(acts: seq<Action>)
    ensures NotSettledYet(Run(INIT, acts))
  {
    if acts == [] {
    } else {
      NotSettledUpTo(acts[..|acts| - 1]);
      InitInv();
      Reachable(INIT, acts[..|acts| - 1]);
      StepKeepsNotSettled(Run(INIT, acts[..|acts| - 1]), acts[|acts| - 1]);
    }
  }

  lemma PrefixAgrees(acts: seq<Action>, k: nat)
    requires k < |acts| && Agreed(Run(INIT, acts[..k]))
    ensures Agreed(Run(INIT, acts[..k + 1])) <==> !Overtaken(Run(INIT, acts[..k]), acts[k])
  {
    assert acts[..k + 1][..k] == acts[..k];
    InitInv();
    Reachable(INIT, acts[..k]);
    NotSettledUpTo(acts[..k]);
    StepAgrees(Run(INIT, acts[..k]), acts[k]);
  }

  lemma {:induction false} AgreedUpTo(acts: seq<Action>, k: nat)
    requires NeverOvertaken(acts) && k <= |acts|
    ensures Agreed(Run(INIT, acts[..k]))
  {
    if k == 0 {
      assert acts[..0] == [];
    } else {
      AgreedUpTo(acts, k - 1);
      PrefixAgrees(acts, k - 1);
    }
  }

  /**
    In every interleaving: at every moment each verdict published or about to be
    is one its order took, if and only if no markStatus finds its order no
    longer pending.
  */
  lemma EventsAgreeExactly(acts: seq<Action>)
    ensures AlwaysAgreed(acts) <==> NeverOvertaken(acts)
  {
    if AlwaysAgreed(acts) {
      forall i | 0 <= i < |acts| ensures !Overtaken(Run(INIT, acts[..i]), acts[i]) { PrefixAgrees(acts, i); }
    }
    if NeverOvertaken(acts) {
      forall k | 0 <= k <= |acts| ensures Agreed(Run(INIT, acts[..k])) { AgreedUpTo(acts, k); }
    }
  }

  // ----- only a cancel overtakes -----

  /** The finalizer is between finding its order and recording the outcome. */
  predicate InBetween(s: State, f: nat, o: OrderId) {
    f in s.finals && s.finals[f].order == o && (s.finals[f].Charging? || s.finals[f].Settling?)
  }

  lemma OnlyCancelOvertakes(s: State, a: Action, f: nat, o: OrderId)
    requires OnePerOrder(s.finals) && InBetween(s, f, o) && InBetween(Step(s, a), f, o) && IsPending(s.db, o)
    ensures IsPending(Step(s, a).db, o) <==> !(a.CancelOrder? && a.order == o)
  {
    StepEffect(s, a);
    var e := Effect(s, a);
    if e == [] {
    } else {
      assert e[..0] == [] && ApplyAll(s.db, e) == Apply(s.db, e[0]);
    }
  }

  lemma LeftPending(o: Order, o': Order)
    requires OrderOk(o) && OrderOk(o') && Evolves(o, o') && o.status != Pending
    ensures o'.status != Pending
  {
    var h, h' := o.history, o'.history;
    assert h'[|h| - 1] == h[|h| - 1] && (|h'| == |h| || h'[|h'| - 1] != Pending);
  }

  lemma {:induction false} NotPendingStays(s: State, a: Action, o: OrderId)
    requires DbOk(s.db) && o in s.db.orders && !IsPending(s.db, o)
    ensures o in Step(s, a).db.orders && !IsPending(Step(s, a).db, o)
  {
    StepKeepsDb(s, a);
    LeftPending(s.db.orders[o], Step(s, a).db.orders[o]);
  }

  /** The finalizer is in between after every prefix of the run. */
  ghost predicate AlwaysBetween(s: State, acts: seq<Action>, f: nat, o: OrderId) {
    forall k :: 0 <= k <= |acts| ==> InBetween(Run(s, acts[..k]), f, o)
  }

  predicate Uncancelled(acts: seq<Action>, o: OrderId) {
    forall i :: 0 <= i < |acts| ==> !(acts[i].CancelOrder? && acts[i].order == o)
  }

  lemma UncancelledSplit(acts: seq<Action>, a: Action, o: OrderId)
    ensures Uncancelled(acts + [a], o) <==> Uncancelled(acts, o) && !(a.CancelOrder? && a.order == o)
  {
    if Uncancelled(acts + [a], o) {
      assert (acts + [a])[|acts|] == a;
      forall i | 0 <= i < |acts| ensures !(acts[i].CancelOrder?
          && acts[i].order == o) { assert (acts + [a])[i] == acts[i]; }
    }
  }

  /** One more step of a run between finding and recording. */
  lemma {:induction false} OneMoreBetween(s: State, a: Action, f: nat, o: OrderId)
    requires Inv(s) && o in s.db.orders && InBetween(s, f, o) && InBetween(Step(s, a), f, o)
    ensures o in Step(s, a).db.orders
    ensures IsPending(Step(s, a).db, o) <==> IsPending(s.db, o) && !(a.CancelOrder? && a.order == o)
  {
    StepKeepsDb(s, a);
    if IsPending(s.db, o) { OnlyCancelOvertakes(s, a, f, o); } else { NotPendingStays(s, a, o); }
  }

  /**
    From the moment a finalizer has found its order pending until it is about to
    record the outcome: the order is still pending if and only if it was not
    cancelled in between.
  */
  lemma {:induction false} PendingUnlessCancelled(s: State, acts: seq<Action>, f: nat, o: OrderId)
    requires Inv(s) && IsPending(s.db, o) && AlwaysBetween(s, acts, f, o)
    ensures TracksCancels(Run(s, acts).db, acts, o)
  {
    var i := 0;
    assert acts[..0] == [];
    while i < |acts|
      invariant 0 <= i <= |acts| && TracksCancels(Run(s, acts[..i]).db, acts[..i], o)
    {
      PrefixTracked(s, acts, i, f, o);
      i := i + 1;
    }
    assert acts[..i] == acts;
  }

  lemma PrefixTracked(s: State, acts: seq<Action>, i: nat, f: nat, o: OrderId)
    requires Inv(s) && i < |acts| && AlwaysBetween(s, acts, f, o) && TracksCancels(Run(s, acts[..i]).db, acts[..i], o)
    ensures TracksCancels(Run(s, acts[..i + 1]).db, acts[..i + 1], o)
  {
    var init, a := acts[..i], acts[i];
    assert acts[..i + 1] == init + [a];
    FoldThen(Step, s, init, a);
    assert InBetween(Run(s, acts[..i]), f, o) && InBetween(Run(s, acts[..i + 1]), f, o);
    Reachable(s, init);
    OneMoreTracked(Run(s, init), init, a, f, o);
  }

  /** The order exists, and is pending exactly when none of the actions cancelled it. */
  predicate TracksCancels(db: Db, acts: seq<Action>, o: OrderId) {
    o in db.orders && (IsPending(db, o) <==> Uncancelled(acts, o))
  }

  lemma OneMoreTracked(m: State, init: seq<Action>, a: Action, f: nat, o: OrderId)
    requires Inv(m) && InBetween(m, f, o) && InBetween(Step(m, a), f, o) && TracksCancels(m.db, init, o)
    ensures TracksCancels(Step(m, a).db, init + [a], o)
  {
    OneMoreBetween(m, a, f, o);
    TracksOneMore(m.db, Step(m, a).db, init, a, o);
  }

  lemma TracksOneMore(db: Db, db': Db, init: seq<Action>, a: Action, o: OrderId)
    requires TracksCancels(db, init, o) && o in db'.orders
    requires IsPending(db', o) <==> IsPending(db, o) && !(a.CancelOrder? && a.order == o)
    ensures TracksCancels(db', init + [a], o)
  {
    UncancelledSplit(init, a, o);
  }

  // ----- a run whose event disagrees -----

  function CancelledOrder(r: Placement): Order {
    Append(NewOrder(r), Cancelled).(softDeleted := false)
  }

  lemma RecordsNothing(s: State, r: Placement, paid: bool)
    requires s.db.orders == map[0 := CancelledOrder(r)] && s.finals == map[0 := Settling(0, paid)]
    ensures Step(s, MarkStatus(0)) == s.(finals := map[0 := Announcing(0, paid, 2)])
  {}

  lemma AnnouncesOne(s: State, paid: bool)
    requires s.finals == map[0 := Announcing(0, paid, 2)]
    ensures Step(s, PublishStatus(0)) ==
      s.(finals := map[0 := Announcing(0, paid, 1)], events := s.events + [StatusChanged(0, paid)])
  {}

  /** The order is charged, cancelled by its customer, and then announced with the charge's outcome. */
  lemma {:induction false} CancelledButAnnounced(r: Placement) returns (acts: seq<Action>)
    ensures var s := Run(INIT, acts);
      && s.events == [StatusChanged(0, ChargeSucceeds(r.payment, r.total))]
      && 0 in s.db.orders && s.db.orders[0].history == [Pending, Cancelled]
  {
    var paid := ChargeSucceeds(r.payment, r.total);
    var sent := ReachesSent(r);
    var charged := TakeAndCharge(sent, r);
    FoldThen(Step, INIT, charged, CancelOrder(0, false));
    var cancelled := charged + [CancelOrder(0, false)];
    FoldThen(Step, INIT, cancelled, MarkStatus(0));
    RecordsNothing(Run(INIT, cancelled), r, paid);
    var marked := cancelled + [MarkStatus(0)];
    FoldThen(Step, INIT, marked, PublishStatus(0));
    AnnouncesOne(Run(INIT, marked), paid);
    acts := marked + [PublishStatus(0)];
  }

  // ----- a finalizer that nobody interrupts -----

  /** A finalizer that finds its order settled or cancelled, or finds none, ends there. */
  lemma FoundSettled(s: State, f: nat)
    requires f in s.finals && s.finals[f].Reading? && !IsPending(s.db, s.finals[f].order)
    ensures Step(s, FindOrder(f)) == s.(finals := Without(s.finals, f))
  {}

  lemma RunsToMark(s: State, f: nat)
    requires f in s.finals && s.finals[f].Reading? && IsPending(s.db, s.finals[f].order)
    ensures var id := s.finals[f].order;
      var paid := Succeeds(s.db.orders[id]);
      Step(Step(Step(s, FindOrder(f)), Charge(f)), MarkStatus(f))
      == s.(db := MarkTx(s.db, id, Settlement(paid)).0, finals := s.finals[f := Announcing(id, paid, 2)],
            charged := s.charged + multiset{id})
  {
    var id, o := s.finals[f].order, s.db.orders[s.finals[f].order];
    var s1 := Step(s, FindOrder(f));
    assert s1 == s.(finals := s.finals[f := Charging(id, o.payment, o.total)]);
    var s2 := Step(s1, Charge(f));
    assert s2 == s.(finals := s.finals[f := Settling(id, Succeeds(o))], charged := s.charged + multiset{id});
  }

  /** Announcing publishes StatusChanged and then the verdict, once each, and the finalizer is done. */
  lemma AnnouncesBoth(s: State, f: nat)
    requires f in s.finals && s.finals[f].Announcing? && s.finals[f].left == 2
    ensures var (id, paid) := (s.finals[f].order, s.finals[f].paid);
      Step(Step(s, PublishStatus(f)), PublishStatus(f))
      == s.(finals := Without(s.finals, f), events := s.events + [StatusChanged(id, paid), Verdict(id, paid)])
  {
    var c := s.finals[f];
    var s1 := Step(s, PublishStatus(f));
    assert s1 == s.(finals := s.finals[f := c.(left := 1)], events := s.events + [StatusChanged(c.order, c.paid)]);
    assert Without(s1.finals, f) == Without(s.finals, f);
    assert s.events + [StatusChanged(c.order, c.paid)] + [Verdict(c.order, c.paid)]
      == s.events + [StatusChanged(c.order, c.paid), Verdict(c.order, c.paid)];
  }

  /**
    A finalizer that nobody interrupts: a pending order is charged once, settled
    by its own payment and announced by its two events, and nothing else changes.
  */
  lemma {:induction false} FinalizeAlone(s: State, f: nat)
    requires f in s.finals && s.finals[f].Reading? && IsPending(s.db, s.finals[f].order)
    ensures var id := s.finals[f].order;
      var paid := Succeeds(s.db.orders[id]);
      var s' := Step(Step(Step(s, FindOrder(f)), Charge(f)), MarkStatus(f));
      Step(Step(s', PublishStatus(f)), PublishStatus(f))
      == s.(db := MarkTx(s.db, id, Settlement(paid)).0, finals := Without(s.finals, f),
            charged := s.charged + multiset{id}, events := s.events + [StatusChanged(id, paid), Verdict(id, paid)])
  {
    RunsToMark(s, f);
    var s' := Step(Step(Step(s, FindOrder(f)), Charge(f)), MarkStatus(f));
    AnnouncesBoth(s', f);
    assert Without(s'.finals, f) == Without(s.finals, f);
  }
}
