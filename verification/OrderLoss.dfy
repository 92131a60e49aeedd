/**
  When an accepted order is lost: pending, with no unpublished row, no message
  and no finalizer.  Exactly which steps lose one, which bring it back, and what
  a drained pipeline therefore holds.
*/
module OrderLoss {
  import opened Runs
  import opened Common
  import opened OrderModel
  import opened OrderPipeline

  ghost predicate Unsent(db: Db, o: OrderId) {
    exists i :: 0 <= i < |db.outbox| && db.outbox[i].order == o && !db.outbox[i].published
  }

  ghost predicate OnTheWay(s: State, o: OrderId) {
    Unsent(s.db, o) || o in s.topic || Finalizing(s, o)
  }

  ghost predicate Lost(s: State, o: OrderId) {
    IsPending(s.db, o) && !OnTheWay(s, o)
  }

  ghost predicate NoneLost(s: State) {
    forall o :: o in s.db.orders ==> !Lost(s, o)
  }

  /** The finalizer that throws held the order's only message, and its row counts as published. */
  ghost predicate FailLoses(s: State, f: nat) {
    && f in s.finals && !s.finals[f].Announcing?
    && var o := s.finals[f].order;
      IsPending(s.db, o) && !Unsent(s.db, o) && o !in s.topic
  }

  /** An unpublished row whose pending order's finalizer threw before, with no message of it left. */
  ghost predicate Abandoned(s: State, i: nat) {
    && i < |s.db.outbox| && !s.db.outbox[i].published
    && var o := s.db.outbox[i].order;
      IsPending(s.db, o) && o in s.dropped && o !in s.topic && !Finalizing(s, o)
  }

  /** The batch marked has such a row. */
  ghost predicate MarkLoses(s: State, t: nat) {
    t in s.ticks && s.ticks[t].sent == |s.ticks[t].batch| && exists i :: i in s.ticks[t].batch && Abandoned(s, i)
  }

  ghost predicate Loses(s: State, a: Action) {
    (a.FinalizerFails? && FailLoses(s, a.fin)) || (a.MarkBatch? && MarkLoses(s, a.tick))
  }

  // ----- steps that lose nothing -----

  lemma PlaceLosesNone(s: State, p: Placement, id: OrderId)
    requires NoneLost(s)
    ensures NoneLost(Step(s, PlaceOrder(p, id)))
  {
    var s' := Step(s, PlaceOrder(p, id));
    OutboxGrows(s.db, Place(p, id));
    forall o | o in s'.db.orders ensures !Lost(s', o) {
      if o in s.db.orders {
      } else {
        assert s'.db.outbox[|s.db.outbox|] == OutboxRow(o, false);
      }
    }
  }

  /** Cancels, claims, sends, failed ticks and redeliveries. */
  lemma OthersLoseNone(s: State, a: Action)
    requires NoneLost(s) && !IsFinal(a) && !a.PlaceOrder? && !a.MarkBatch?
    ensures NoneLost(Step(s, a))
  {
    var s' := Step(s, a);
    forall o | o in s'.db.orders ensures !Lost(s', o) {
    }
  }

  lemma TakeLosesNone(s: State, f: nat, x: OrderId)
    requires NoneLost(s)
    ensures NoneLost(FinalStep(s, Take(f, x)))
  {
    var s' := FinalStep(s, Take(f, x));
    forall o | o in s'.db.orders ensures !Lost(s', o) {
      if s' != s && o == x { assert s'.finals[f] == Reading(o); }
      if Finalizing(s, o) {
        var g :| g in s.finals && s.finals[g].order == o && !s.finals[g].Announcing?;
        assert g in s'.finals && s'.finals[g] == s.finals[g];
      }
    }
  }

  /** A finalizer that moves on without recording an outcome keeps its order unless it is settled already. */
  lemma MovesLoseNone(s: State, a: Action)
    requires NoneLost(s) && (a.FindOrder? || a.Charge? || a.PublishStatus?)
    ensures NoneLost(FinalStep(s, a))
  {
    var s' := FinalStep(s, a);
    forall o | o in s'.db.orders ensures !Lost(s', o) {
      if IsPending(s.db, o) && Finalizing(s, o) {
        var g :| g in s.finals && s.finals[g].order == o && !s.finals[g].Announcing?;
        assert g in s'.finals && s'.finals[g].order == o && !s'.finals[g].Announcing?;
      }
    }
  }

  lemma SettlingLosesNone(s: State, f: nat)
    requires NoneLost(s)
    ensures NoneLost(FinalStep(s, MarkStatus(f)))
  {
    var s' := FinalStep(s, MarkStatus(f));
    forall o | o in s'.db.orders ensures !Lost(s', o) {
      if IsPending(s'.db, o) && Finalizing(s, o) {
        var g :| g in s.finals && s.finals[g].order == o && !s.finals[g].Announcing?;
        assert g in s'.finals && s'.finals[g] == s.finals[g];
      }
    }
  }

  // ----- and the two that may -----

  lemma FailDecides(s: State, f: nat)
    requires NoneLost(s) && OnePerOrder(s.finals)
    ensures NoneLost(FinalStep(s, FinalizerFails(f))) <==> !FailLoses(s, f)
  {
    var s' := FinalStep(s, FinalizerFails(f));
    if FailLoses(s, f) {
      assert Lost(s', s.finals[f].order);
    } else {
      forall o | o in s'.db.orders ensures !Lost(s', o) {
        if Finalizing(s, o) {
          var g :| g in s.finals && s.finals[g].order == o && !s.finals[g].Announcing?;
          if g != f { assert g in s'.finals && s'.finals[g] == s.finals[g]; }
        }
      }
    }
  }

  lemma {:induction false} MarkDecides(s: State, t: nat)
    requires NoneLost(s) && RowsNameOrders(s.db) && RelayOk(s) && LogHandled(s)
    ensures NoneLost(RelayStep(s, MarkBatch(t))) <==> !MarkLoses(s, t)
  {
    var s' := RelayStep(s, MarkBatch(t));
    if MarkLoses(s, t) {
      var i :| i in s.ticks[t].batch && Abandoned(s, i);
      MarkedRowGone(s, t, i);
      assert Lost(s', s.db.outbox[i].order);
    } else if s' != s {
      forall o | o in s'.db.orders ensures !Lost(s', o) { MarkKeeps(s, t, o); }
    }
  }

  lemma MarkedRowGone(s: State, t: nat, i: nat)
    requires RowsNameOrders(s.db) && t in s.ticks && s.ticks[t].sent == |s.ticks[t].batch|
    requires i in s.ticks[t].batch && i < |s.db.outbox|
    ensures !Unsent(RelayStep(s, MarkBatch(t)).db, s.db.outbox[i].order)
  {
    var db := RelayStep(s, MarkBatch(t)).db;
    forall j | 0 <= j < |db.outbox| && db.outbox[j].order == s.db.outbox[i].order ensures db.outbox[j].published {
      assert j == i;
    }
  }

  lemma MarkKeeps(s: State, t: nat, o: OrderId)
    requires !Lost(s, o) && RelayOk(s) && LogHandled(s) && !MarkLoses(s, t)
    requires t in s.ticks && s.ticks[t].sent == |s.ticks[t].batch|
    ensures !Lost(RelayStep(s, MarkBatch(t)), o)
  {
    var s' := RelayStep(s, MarkBatch(t));
    assert Finalizing(s, o) ==> Finalizing(s', o);
    if IsPending(s.db, o) && Unsent(s.db, o) {
      var i :| 0 <= i < |s.db.outbox| && s.db.outbox[i].order == o && !s.db.outbox[i].published;
      if i in s.ticks[t].batch {
        assert TickOk(s, s.ticks[t]);
        assert i in s.log;
        assert Handled(s, s.db.outbox[i].order) && !Abandoned(s, i);
      } else {
        assert s'.db.outbox[i] == s.db.outbox[i];
      }
    }
  }

  /** One step of any caller, from a reachable state in which nothing is lost. */
  lemma {:induction false} StepLoses(s: State, a: Action)
    requires Inv(s) && NoneLost(s)
    ensures NoneLost(Step(s, a)) <==> !Loses(s, a)
  {
    match a {
      case PlaceOrder(p, id) => PlaceLosesNone(s, p, id);
      case MarkBatch(t) => MarkDecides(s, t);
      case _ => if IsFinal(a) { FinalLoses(s, a); } else { OthersLoseNone(s, a); }
    }
  }

  lemma FinalLoses(s: State, a: Action)
    requires Inv(s) && NoneLost(s) && IsFinal(a)
    ensures NoneLost(FinalStep(s, a)) <==> !Loses(s, a)
  {
    match a {
      case Take(f, o) => TakeLosesNone(s, f, o);
      case MarkStatus(f) => SettlingLosesNone(s, f);
      case FinalizerFails(f) => FailDecides(s, f);
      case _ => MovesLoseNone(s, a);
    }
  }

  // ----- over every run -----

  ghost predicate NeverLoses(acts: seq<Action>) {
    forall i :: 0 <= i < |acts| ==> !Loses(Run(INIT, acts[..i]), acts[i])
  }

  ghost predicate NeverLost(acts: seq<Action>) {
    forall k :: 0 <= k <= |acts| ==> NoneLost(Run(INIT, acts[..k]))
  }

  lemma PrefixLoses(acts: seq<Action>, k: nat)
    requires k < |acts| && NoneLost(Run(INIT, acts[..k]))
    ensures NoneLost(Run(INIT, acts[..k + 1])) <==> !Loses(Run(INIT, acts[..k]), acts[k])
  {
    assert acts[..k + 1][..k] == acts[..k];
    InitInv();
    Reachable(INIT, acts[..k]);
    StepLoses(Run(INIT, acts[..k]), acts[k]);
  }

  lemma {:induction false} NoneLostUpTo(acts: seq<Action>, k: nat)
    requires NeverLoses(acts) && k <= |acts|
    ensures NoneLost(Run(INIT, acts[..k]))
  {
    if k == 0 {
      assert acts[..0] == [];
    } else {
      NoneLostUpTo(acts, k - 1);
      PrefixLoses(acts, k - 1);
    }
  }

  /**
    In every interleaving of any number of callers: every pending order has, at
    every moment, an unpublished row, a message or a finalizer, if and only if
    no step is a losing one.
  */
  lemma NoOrderLost(acts: seq<Action>)
    ensures NeverLost(acts) <==> NeverLoses(acts)
  {
    if NeverLost(acts) {
      forall i | 0 <= i < |acts| ensures !Loses(Run(INIT, acts[..i]), acts[i]) { PrefixLoses(acts, i); }
    }
    if NeverLoses(acts) {
      forall k | 0 <= k <= |acts| ensures NoneLost(Run(INIT, acts[..k])) { NoneLostUpTo(acts, k); }
    }
  }

  // ----- how long an order stays lost -----

  /** A message of the order comes back, or it is cancelled. */
  ghost predicate Rescues(s: State, a: Action, o: OrderId) {
    || (a.CancelOrder? && a.order == o)
    || (a.Redeliver? && a.row in s.log && a.row < |s.db.outbox| && s.db.outbox[a.row].order == o)
    || (a.SendNext? && a.tick in s.ticks && s.ticks[a.tick].sent < |s.ticks[a.tick].batch|
        && var row := s.ticks[a.tick].batch[s.ticks[a.tick].sent];
          row < |s.db.outbox| && s.db.outbox[row].order == o)
  }

  lemma WriteKeepsLost(s: State, a: Action, o: OrderId)
    requires Lost(s, o) && (a.PlaceOrder? || a.CancelOrder?)
    ensures Lost(Step(s, a), o) <==> !Rescues(s, a, o)
  {
    var s' := Step(s, a);
    assert forall i :: 0 <= i < |s'.db.outbox| && s'.db.outbox[i].order == o && i < |s.db.outbox| ==>
      s'.db.outbox[i] == s.db.outbox[i];
    assert s'.finals == s.finals;
  }

  lemma FinalKeepsRows(s: State, a: Action, o: OrderId)
    requires IsFinal(a) && !(exists g :: g in s.finals && s.finals[g].order == o && !s.finals[g].Announcing?)
    ensures var s' := FinalStep(s, a);
      s'.db.outbox == s.db.outbox && s'.topic <= s.topic && (IsPending(s'.db, o) <==> IsPending(s.db, o))
  {}

  lemma FinalKeepsLost(s: State, a: Action, o: OrderId)
    requires Lost(s, o) && IsFinal(a)
    ensures Lost(FinalStep(s, a), o)
  {
    var s' := FinalStep(s, a);
    FinalKeepsRows(s, a, o);
    assert s'.topic[o] <= s.topic[o];
    forall g | g in s'.finals && !s'.finals[g].Announcing? ensures s'.finals[g].order != o {
    }
  }

  /** A lost order stays lost until its message is delivered or sent again or it is cancelled, and no longer. */
  lemma {:induction false} LostUntilRescued(s: State, a: Action, o: OrderId)
    requires Lost(s, o)
    ensures Lost(Step(s, a), o) <==> !Rescues(s, a, o)
  {
    if IsFinal(a) {
      FinalKeepsLost(s, a, o);
    } else if a.PlaceOrder? || a.CancelOrder? {
      WriteKeepsLost(s, a, o);
    } else {
    }
  }

  // ----- a drained pipeline -----

  ghost predicate Drained(s: State) {
    && (forall i :: 0 <= i < |s.db.outbox| ==> s.db.outbox[i].published)
    && s.topic == multiset{} && s.finals == map[]
  }

  /**
    Once everything is drained, every order is cancelled, has the outcome of its
    own payment, or is lost; and if no step lost one, none is pending.
  */
  lemma DrainedOutcome(acts: seq<Action>, o: OrderId)
    requires Drained(Run(INIT, acts)) && o in Run(INIT, acts).db.orders
    ensures var s := Run(INIT, acts);
      var ord := s.db.orders[o];
      ord.status == Cancelled || ord.status == Settlement(Succeeds(ord)) || Lost(s, o)
    ensures NeverLoses(acts) ==> !IsPending(Run(INIT, acts).db, o)
  {
    var s := Run(INIT, acts);
    InitInv();
    Reachable(INIT, acts);
    var ord := s.db.orders[o];
    assert OrderOk(ord) && Truthful(ord);
    assert ord.status in ord.history;
    if NeverLoses(acts) {
      NoneLostUpTo(acts, |acts|);
      assert acts[..|acts|] == acts;
    }
  }

  /** Confluence: without cancels and losses the drained table is a function of the orders placed. */
  lemma {:induction false} DrainedConfluence(acts: seq<Action>, o: OrderId)
    requires forall i :: 0 <= i < |acts| ==> !acts[i].CancelOrder?
    requires Drained(Run(INIT, acts)) && NeverLoses(acts) && o in Run(INIT, acts).db.orders
    ensures Finished(Run(INIT, acts).db.orders[o])
  {
    var db := Run(INIT, acts).db;
    assert NoneCancelled(db) by { UncancelledStay(acts); }
    DrainedOutcome(acts, o);
    assert OrderOk(db.orders[o]) by { PipelineDb(acts); }
    SettledHistory(db.orders[o]);
  }

  // ----- both losing steps happen -----

  /** A finalizer takes the only message and throws. */
  lemma {:induction false} TakeAndFail(acts: seq<Action>) returns (more: seq<Action>)
    requires Run(INIT, acts).topic == multiset{0} && Run(INIT, acts).finals == map[]
    ensures var s, s' := Run(INIT, acts), Run(INIT, more);
      s'.db == s.db && s'.ticks == s.ticks && s'.topic == multiset{} && s'.finals == map[]
  {
    var s := Run(INIT, acts);
    FoldThen(Step, INIT, acts, Take(0, 0));
    var taken := acts + [Take(0, 0)];
    FoldThen(Step, INIT, taken, FinalizerFails(0));
    FailsOne(Run(INIT, taken));
    more := taken + [FinalizerFails(0)];
  }

  /** The finalizer throws after the row was marked. */
  lemma {:induction false} FailedFinalizerLosesOrder(r: Placement) returns (acts: seq<Action>)
    ensures Lost(Run(INIT, acts), 0)
  {
    var marked := ReachesMarked(r);
    acts := TakeAndFail(marked);
  }

  /** The finalizer throws first; the row still stands until the tick marks it. */
  lemma {:induction false} MarkedRowLosesOrder(r: Placement) returns (acts: seq<Action>)
    ensures !Lost(Run(INIT, acts), 0) && Lost(Run(INIT, acts + [MarkBatch(0)]), 0)
  {
    var sent := ReachesSent(r);
    acts := TakeAndFail(sent);
    FoldThen(Step, INIT, acts, MarkBatch(0));
    MarkLosesLast(Run(INIT, acts), r);
  }

  lemma MarkLosesLast(s: State, r: Placement)
    requires s.db == Placed(r) && s.topic == multiset{} && s.finals == map[] && s.ticks == map[0 := Tick([0], 1)]
    ensures !Lost(s, 0) && Lost(Step(s, MarkBatch(0)), 0)
  {
    assert s.db.outbox[0] == OutboxRow(0, false);
    var s' := Step(s, MarkBatch(0));
    assert s'.db == s.db.(outbox := Publish(s.db.outbox, [0]));
  }
}
