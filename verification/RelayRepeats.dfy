/** When the relay publishes a row twice: ticks that overlap, or follow a failed one. */
module RelayRepeats {
  import opened Runs
  import opened Common
  import opened OrderModel
  import opened OrderPipeline

  predicate NoRepeat(log: seq<nat>) {
    forall i, j :: 0 <= i < j < |log| ==> log[i] != log[j]
  }

  /** A live tick has yet to publish row i. */
  ghost predicate Owes(s: State, t: nat, i: nat) {
    t in s.ticks && s.ticks[t].sent <= |s.ticks[t].batch| && i in s.ticks[t].batch[s.ticks[t].sent..]
  }

  /**
    No row was published twice, and none is about to be: what live ticks have
    yet to publish was not published, and no two of them owe the same row.
  */
  ghost predicate Apart(s: State) {
    && NoRepeat(s.log)
    && (forall t, i :: Owes(s, t, i) ==> i !in s.log)
    && (forall t, u, i :: Owes(s, t, i) && Owes(s, u, i) ==> t == u)
  }

  /** A tick's rows are distinct. */
  ghost predicate BatchesDistinct(s: State) {
    forall t :: t in s.ticks ==> NoRepeat(s.ticks[t].batch)
  }

  /** The tick claims a row already published, or one that a live tick owes. */
  ghost predicate Overlaps(s: State, a: Action) {
    && a.ClaimBatch? && a.tick !in s.ticks
    && exists i :: i in Claim(s.db.outbox, 0, BATCH) && (i in s.log || exists u :: Owes(s, u, i))
  }

  lemma {:induction false} ClaimDistinct(outbox: seq<OutboxRow>, i: nat, limit: nat)
    requires i <= |outbox|
    ensures NoRepeat(Claim(outbox, i, limit))
    decreases |outbox| - i
  {
    if i == |outbox| || limit == 0 {
    } else {
      ClaimDistinct(outbox, i + 1, if outbox[i].published then limit else limit - 1);
    }
  }

  lemma StepKeepsDistinct(s: State, a: Action)
    requires BatchesDistinct(s)
    ensures BatchesDistinct(Step(s, a))
  {
    if a.ClaimBatch? { ClaimDistinct(s.db.outbox, 0, BATCH); }
    var s' := Step(s, a);
    forall t | t in s'.ticks ensures NoRepeat(s'.ticks[t].batch) {
    }
  }

  // ----- one step -----

  lemma ClaimDecides(s: State, t: nat)
    requires Apart(s)
    ensures Apart(RelayStep(s, ClaimBatch(t))) <==> !Overlaps(s, ClaimBatch(t))
  {
    var s' := RelayStep(s, ClaimBatch(t));
    if t !in s.ticks {
      var batch := Claim(s.db.outbox, 0, BATCH);
      assert batch[0..] == batch;
      forall u, i ensures Owes(s', u, i) <==> Owes(s, u, i) || (u == t && i in batch) {}
      ClaimOwes(s, s', t, batch);
    }
  }

  lemma ClaimOwes(s: State, s': State, t: nat, batch: seq<nat>)
    requires Apart(s) && s'.log == s.log && t !in s.ticks && batch == Claim(s.db.outbox, 0, BATCH)
    requires forall u, i :: Owes(s', u, i) <==> Owes(s, u, i) || (u == t && i in batch)
    ensures Apart(s') <==> !Overlaps(s, ClaimBatch(t))
  {
    if Overlaps(s, ClaimBatch(t)) {
      var i :| i in batch && (i in s.log || exists u :: Owes(s, u, i));
      assert Owes(s', t, i);
      if u :| Owes(s, u, i) { assert Owes(s', u, i) && u != t; }
    }
  }

  /** Sending moves a row from what its tick owes to the log. */
  lemma SendKeepsApart(s: State, t: nat)
    requires Apart(s) && BatchesDistinct(s)
    ensures Apart(RelayStep(s, SendNext(t)))
  {
    var s' := RelayStep(s, SendNext(t));
    if s' != s {
      var k := s.ticks[t];
      var row := k.batch[k.sent];
      assert k.batch[k.sent..] == [row] + k.batch[k.sent + 1..];
      assert Owes(s, t, row);
      forall u, i | Owes(s', u, i) ensures Owes(s, u, i) && i != row { OwesLess(s, t, u, i); }
    }
  }

  lemma OwesLess(s: State, t: nat, u: nat, i: nat)
    requires Apart(s) && BatchesDistinct(s) && Owes(RelayStep(s, SendNext(t)), u, i)
    requires t in s.ticks && s.ticks[t].sent < |s.ticks[t].batch| && s.ticks[t].batch[s.ticks[t].sent] < |s.db.outbox|
    ensures Owes(s, u, i) && i != s.ticks[t].batch[s.ticks[t].sent]
  {
    var k := s.ticks[t];
    var row := k.batch[k.sent];
    assert k.batch[k.sent..] == [row] + k.batch[k.sent + 1..];
    if u == t {
      var j :| k.sent < j < |k.batch| && k.batch[j] == i;
    } else {
      assert Owes(s, u, i) && Owes(s, t, row);
    }
  }

  /** Everything else publishes nothing and lets no tick owe more. */
  lemma OthersKeepApart(s: State, s': State)
    requires Apart(s) && s'.log == s.log
    requires forall t :: t in s'.ticks ==> t in s.ticks && s'.ticks[t] == s.ticks[t]
    ensures Apart(s')
  {
    forall t, i ensures Owes(s', t, i) ==> Owes(s, t, i) {}
  }

  lemma StepApart(s: State, a: Action)
    requires Apart(s) && BatchesDistinct(s)
    ensures Apart(Step(s, a)) <==> !Overlaps(s, a)
  {
    if a.ClaimBatch? {
      ClaimDecides(s, a.tick);
    } else if a.SendNext? {
      SendKeepsApart(s, a.tick);
    } else {
      OthersKeepApart(s, Step(s, a));
    }
  }

  // ----- every run -----

  ghost predicate AlwaysApart(acts: seq<Action>) {
    Apart(Run(INIT, acts)) && (acts == [] || AlwaysApart(acts[..|acts| - 1]))
  }

  ghost predicate NeverOverlaps(acts: seq<Action>) {
    acts == [] || (NeverOverlaps(acts[..|acts| - 1]) && !Overlaps(Run(INIT, acts[..|acts| - 1]), acts[|acts| - 1]))
  }

  lemma {:induction false} AlwaysDistinct(acts: seq<Action>)
    ensures BatchesDistinct(Run(INIT, acts))
  {
    if acts == [] {
    } else {
      AlwaysDistinct(acts[..|acts| - 1]);
      StepKeepsDistinct(Run(INIT, acts[..|acts| - 1]), acts[|acts| - 1]);
    }
  }

  /**
    In every run: at every moment no row was published twice and none is about
    to be, if and only if no tick claimed a row published before or owed by
    another live tick.
  */
  lemma {:induction false} SentOnceExactly(acts: seq<Action>)
    ensures AlwaysApart(acts) <==> NeverOverlaps(acts)
  {
    if acts == [] {
    } else {
      SentOnceExactly(acts[..|acts| - 1]);
      if AlwaysApart(acts[..|acts| - 1]) {
        AlwaysDistinct(acts[..|acts| - 1]);
        StepApart(Run(INIT, acts[..|acts| - 1]), acts[|acts| - 1]);
      }
    }
  }

  /** A tick that fails is gone and leaves its rows unmarked: the next tick claims them again. */
  lemma FailedTickIsRepeated(s: State, t: nat, u: nat)
    requires t in s.ticks && u !in s.ticks
    ensures var s' := Step(s, TickFails(t));
      t !in s'.ticks && s'.ticks == Without(s.ticks, t) && s'.db == s.db && s'.log == s.log
      && Step(s', ClaimBatch(u)).ticks == s'.ticks[u := Tick(Claim(s.db.outbox, 0, BATCH), 0)]
  {}

  // ----- ticks that never overlap or fail send every row once, in creation order -----

  /** A tick begins only when none is live, and no live tick fails. */
  predicate Lone(s: State, a: Action) {
    && (a.ClaimBatch? && a.tick !in s.ticks ==> s.ticks == map[])
    && (a.TickFails? ==> a.tick !in s.ticks)
  }

  ghost predicate LoneRun(acts: seq<Action>) {
    acts == [] || (LoneRun(acts[..|acts| - 1]) && Lone(Run(INIT, acts[..|acts| - 1]), acts[|acts| - 1]))
  }

  /** The numbers from i on. */
  predicate CountsFrom(rows: seq<nat>, i: nat) {
    forall j :: 0 <= j < |rows| ==> rows[j] == i + j
  }

  predicate MarkedTo(outbox: seq<OutboxRow>, p: nat) {
    p <= |outbox| && forall i :: 0 <= i < |outbox| ==> (outbox[i].published <==> i < p)
  }

  /** The first p rows are marked, the log counts up, and the one live tick holds the rows from p on. */
  ghost predicate InOrder(s: State, p: nat) {
    && MarkedTo(s.db.outbox, p) && CountsFrom(s.log, 0)
    && (s.ticks == map[] ==> |s.log| == p)
    && (forall t, u | t in s.ticks && u in s.ticks :: t == u)
    && (forall t :: t in s.ticks ==> InStep(s, s.ticks[t], p))
  }

  predicate InStep(s: State, k: Tick, p: nat) {
    CountsFrom(k.batch, p) && p + |k.batch| <= |s.db.outbox| && k.sent <= |k.batch| && |s.log| == p + k.sent
  }

  lemma {:induction false} ClaimCounts(outbox: seq<OutboxRow>, p: nat, i: nat, limit: nat)
    requires MarkedTo(outbox, p) && i <= |outbox|
    ensures CountsFrom(Claim(outbox, i, limit), if i < p then p else i)
    ensures (if i < p then p else i) + |Claim(outbox, i, limit)| <= |outbox|
    decreases |outbox| - i
  {
    if i == |outbox| || limit == 0 {
    } else if outbox[i].published {
      ClaimCounts(outbox, p, i + 1, limit);
    } else {
      ClaimCounts(outbox, p, i + 1, limit - 1);
    }
  }

  lemma {:induction false} ClaimInOrder(s: State, a: Action, p: nat)
    requires InOrder(s, p) && Lone(s, a) && a.ClaimBatch?
    ensures InOrder(Step(s, a), p) && !Overlaps(s, a)
  {
    ClaimCounts(s.db.outbox, p, 0, BATCH);
  }

  lemma SendInOrder(s: State, a: Action, p: nat)
    requires InOrder(s, p) && a.SendNext?
    ensures InOrder(Step(s, a), p)
  {
    var s', t := Step(s, a), a.tick;
    if s' != s {
      var k := s.ticks[t];
      assert InStep(s, k, p) && k.batch[k.sent] == p + k.sent;
      assert s'.ticks.Keys == s.ticks.Keys && s'.log == s.log + [|s.log|];
      assert InStep(s', s'.ticks[t], p);
    }
  }

  lemma MarkInOrder(s: State, a: Action, p: nat) returns (p': nat)
    requires InOrder(s, p) && a.MarkBatch?
    ensures InOrder(Step(s, a), p')
  {
    p' := p;
    var s' := Step(s, a);
    if a.tick in s.ticks && s.ticks[a.tick].sent == |s.ticks[a.tick].batch| {
      var batch := s.ticks[a.tick].batch;
      p' := p + |batch|;
      assert InStep(s, s.ticks[a.tick], p);
      forall i | p <= i < p' ensures i in batch { assert batch[i - p] == i; }
      assert s'.ticks == map[];
    }
  }

  /** Placers, cancellers, finalizers and redeliveries leave marks, ticks and log as they are. */
  lemma OthersInOrder(s: State, s': State, p: nat)
    requires InOrder(s, p) && s'.log == s.log && s'.ticks == s.ticks && |s.db.outbox| <= |s'.db.outbox|
    requires MarkedTo(s'.db.outbox, p)
    ensures InOrder(s', p)
  {
    forall t | t in s'.ticks ensures InStep(s', s'.ticks[t], p) { assert InStep(s, s.ticks[t], p); }
  }

  lemma OthersLeaveTicks(s: State, a: Action)
    requires Lone(s, a) && !a.ClaimBatch? && !a.SendNext? && !a.MarkBatch?
    ensures Step(s, a).log == s.log && Step(s, a).ticks == s.ticks
  {
    if a.TickFails? {
      assert Without(s.ticks, a.tick) == s.ticks;
    } else if IsFinal(a) {
      FinalLeavesTicks(s, a);
    }
  }

  lemma FinalLeavesTicks(s: State, a: Action)
    requires IsFinal(a)
    ensures FinalStep(s, a).log == s.log && FinalStep(s, a).ticks == s.ticks
  {
    if !a.Take? && !a.FinalizerFails? { AwaitLeavesTicks(s, a); }
  }

  lemma AwaitLeavesTicks(s: State, a: Action)
    requires a.FindOrder? || a.Charge? || a.MarkStatus? || a.PublishStatus?
    ensures FinalStep(s, a).log == s.log && FinalStep(s, a).ticks == s.ticks
  {}

  lemma OthersMarkNothing(s: State, a: Action)
    requires !a.MarkBatch?
    ensures var box, box' := s.db.outbox, Step(s, a).db.outbox;
      |box| <= |box'| && forall i :: 0 <= i < |box'| ==> box'[i].published == (i < |box| && box[i].published)
  {}

  /**
    In every run whose ticks never overlap or fail, whatever placers, cancellers
    and finalizers do meanwhile: the rows published are 0, 1, 2 and so on, each
    once, every marked row among them, and no tick claims what another sent.
  */
  lemma {:induction false} LoneTicksSendInOrder(acts: seq<Action>) returns (p: nat)
    requires LoneRun(acts)
    ensures InOrder(Run(INIT, acts), p) && CountsFrom(Run(INIT, acts).log, 0) && p <= |Run(INIT, acts).log|
    ensures NeverOverlaps(acts)
  {
    if acts == [] {
      p := 0;
    } else {
      var s, a := Run(INIT, acts[..|acts| - 1]), acts[|acts| - 1];
      p := LoneTicksSendInOrder(acts[..|acts| - 1]);
      if a.ClaimBatch? {
        ClaimInOrder(s, a, p);
      } else if a.SendNext? {
        SendInOrder(s, a, p);
      } else if a.MarkBatch? {
        p := MarkInOrder(s, a, p);
      } else {
        OthersLeaveTicks(s, a);
        OthersMarkNothing(s, a);
        OthersInOrder(s, Step(s, a), p);
      }
    }
  }

  // ----- and without it a row is published twice -----

  /** From s to s', tick t published its rows up to j and nothing else happened to rows and ticks. */
  ghost predicate SentUpTo(s: State, s': State, t: nat, j: nat) {
    && t in s.ticks && s.ticks[t].sent <= j < |s.ticks[t].batch|
    && s'.log == s.log + s.ticks[t].batch[s.ticks[t].sent..j + 1] && s'.db == s.db
    && s'.ticks == s.ticks[t := Tick(s.ticks[t].batch, j + 1)]
  }

  lemma SendsFirst(s: State, t: nat)
    requires t in s.ticks && TickOk(s, s.ticks[t]) && s.ticks[t].sent < |s.ticks[t].batch|
    ensures SentUpTo(s, Step(s, SendNext(t)), t, s.ticks[t].sent)
  {
    var k := s.ticks[t];
    assert k.batch[k.sent..k.sent + 1] == [k.batch[k.sent]];
  }

  lemma SendsOneMore(s: State, s1: State, t: nat, j: nat)
    requires t in s.ticks && TickOk(s, s.ticks[t]) && s.ticks[t].sent < j < |s.ticks[t].batch|
    requires SentUpTo(s, s1, t, j - 1)
    ensures SentUpTo(s, Step(s1, SendNext(t)), t, j)
  {
    var k := s.ticks[t];
    assert k.batch[k.sent..j + 1] == k.batch[k.sent..j] + [k.batch[j]];
  }

  predicate AllSends(acts: seq<Action>) {
    forall i :: 0 <= i < |acts| ==> acts[i].SendNext?
  }

  /** A live tick goes on publishing until row j of its batch is out. */
  lemma {:induction false} SendUpTo(s: State, t: nat, j: nat) returns (acts: seq<Action>)
    requires t in s.ticks && TickOk(s, s.ticks[t]) && s.ticks[t].sent <= j < |s.ticks[t].batch|
    ensures AllSends(acts) && SentUpTo(s, Run(s, acts), t, j)
  {
    var init: seq<Action>, s1 := [], s;
    if j == s.ticks[t].sent {
      SendsFirst(s, t);
    } else {
      init := SendUpTo(s, t, j - 1);
      s1 := Run(s, init);
      SendsOneMore(s, s1, t, j);
    }
    acts := AfterSending(s, init, s1, t);
  }

  lemma AfterSending(s: State, init: seq<Action>, s1: State, t: nat) returns (acts: seq<Action>)
    requires AllSends(init) && s1 == Run(s, init)
    ensures AllSends(acts) && Run(s, acts) == Step(s1, SendNext(t))
  {
    acts := init + [SendNext(t)];
    FoldThen(Step, s, init, SendNext(t));
  }

  /** Publishing what is owed, with no claim in between, repeats a row. */
  ghost predicate RepeatsSoon(s: State, acts: seq<Action>) {
    AllSends(acts) && !NoRepeat(Run(s, acts).log)
  }

  /** Tick t owes a row that is in the log. */
  lemma OwedTwice(s: State, t: nat, i: nat) returns (acts: seq<Action>)
    requires t in s.ticks && TickOk(s, s.ticks[t]) && Owes(s, t, i) && i in s.log
    ensures RepeatsSoon(s, acts)
  {
    var k := s.ticks[t];
    var n :| k.sent <= n < |k.batch| && k.batch[n] == i;
    acts := SendUpTo(s, t, n);
    var m :| 0 <= m < |s.log| && s.log[m] == i;
    var log := Run(s, acts).log;
    assert log[m] == i && log[|log| - 1] == k.batch[n];
  }

  /** Two ticks owe the same row. */
  lemma OwedByTwo(s: State, t: nat, u: nat, i: nat) returns (acts: seq<Action>)
    requires RelayOk(s) && t != u && Owes(s, t, i) && Owes(s, u, i)
    ensures RepeatsSoon(s, acts)
  {
    var k := s.ticks[t];
    assert TickOk(s, k) && TickOk(s, s.ticks[u]);
    var n :| k.sent <= n < |k.batch| && k.batch[n] == i;
    var first := SendUpTo(s, t, n);
    var s1 := Run(s, first);
    assert s1.log[|s1.log| - 1] == i && s1.ticks[u] == s.ticks[u];
    var rest := OwedTwice(s1, u, i);
    FoldAppend(Step, s, first, rest);
    acts := first + rest;
  }

  /** With nothing published twice, what live ticks owe can be published without repeating a row only while apart. */
  lemma ApartExactly(s: State)
    requires RelayOk(s) && BatchesDistinct(s)
    ensures Apart(s) <==> forall acts: seq<Action> :: !RepeatsSoon(s, acts)
  {
    if Apart(s) {
      forall acts: seq<Action> ensures !RepeatsSoon(s, acts) {
        if AllSends(acts) { SendsKeepApart(s, acts); }
      }
    } else if !NoRepeat(s.log) {
      assert Run(s, []) == s;
      assert RepeatsSoon(s, []);
    } else if t, i :| Owes(s, t, i) && i in s.log {
      assert TickOk(s, s.ticks[t]);
      var acts := OwedTwice(s, t, i);
      assert RepeatsSoon(s, acts);
    } else {
      var t, u, i :| Owes(s, t, i) && Owes(s, u, i) && t != u;
      var acts := OwedByTwo(s, t, u, i);
      assert RepeatsSoon(s, acts);
    }
  }

  lemma {:induction false} SendsKeepApart(s: State, acts: seq<Action>)
    requires Apart(s) && BatchesDistinct(s) && AllSends(acts)
    ensures Apart(Run(s, acts)) && BatchesDistinct(Run(s, acts))
  {
    if acts == [] {
    } else {
      SendsKeepApart(s, acts[..|acts| - 1]);
      StepApart(Run(s, acts[..|acts| - 1]), acts[|acts| - 1]);
      StepKeepsDistinct(Run(s, acts[..|acts| - 1]), acts[|acts| - 1]);
    }
  }

  /** Two ticks that claim before either marks publish the one row twice. */
  lemma TwoTicksRepeat(r: Placement) returns (acts: seq<Action>)
    ensures Run(INIT, acts).log == [0, 0]
  {
    var sent := ReachesSent(r);
    FoldThen(Step, INIT, sent, ClaimBatch(1));
    var s := Sent(r);
    assert Claim(s.db.outbox, 0, BATCH) == [0] by { assert Claim(s.db.outbox, 1, BATCH - 1) == []; }
    var claimed := sent + [ClaimBatch(1)];
    assert Run(INIT, claimed) == s.(ticks := s.ticks[1 := Tick([0], 0)]);
    FoldThen(Step, INIT, claimed, SendNext(1));
    acts := claimed + [SendNext(1)];
  }
}
