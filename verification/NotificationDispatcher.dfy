/**
  The notification retry loop: up to three attempts, one delivery row per attempt,
  then the dead-letter queue.  A Script says what the provider and the delivery
  table answer at each attempt.
*/
module NotificationDispatching {
  const MAX_ATTEMPTS: nat := 3

  datatype Job = Job(user: string, channel: string, force: bool, body: string)
  datatype Status = Sent | Failed | Dlq
  datatype Row = Row(notification: nat, status: Status, attempts: nat)

  /**
    What the calls of one dispatch answer: reading the preference, creating the
    notification, the row for a missing provider, the three writes of attempt k
    (provider.send, the sent row, the failure row) and the dead-letter publish.
  */
  datatype Script = Script(looksUp: bool, creates: bool, savesMissing: bool,
                           sends: nat -> bool, savesSent: nat -> bool, savesFailure: nat -> bool, publishes: bool)

  /** Crashed: a call other than an attempt's send or sent row threw, and the error escapes dispatch. */
  datatype Outcome = Skipped | NoProvider | Delivered | DeadLettered | Crashed

  /** Attempts k and later of one notification. */
  function Attempts(n: nat, s: Script, k: nat): (seq<Row>, Outcome)
    requires 1 <= k <= MAX_ATTEMPTS + 1
    decreases MAX_ATTEMPTS + 1 - k
  {
    if k > MAX_ATTEMPTS then ([], DeadLettered)
    else if s.sends(k) && s.savesSent(k) then ([Row(n, Sent, k)], Delivered)
    else if !s.savesFailure(k) then ([], Crashed)
    else
      var (rows, o) := Attempts(n, s, k + 1);
      ([Row(n, if k >= MAX_ATTEMPTS then Dlq else Failed, k)] + rows, o)
  }

  function Allowed(preferences: map<(string, string), bool>, j: Job): bool {
    j.force || (if (j.user, j.channel) in preferences then preferences[(j.user, j.channel)] else true)
  }

  /** Whether the job's notification gets created. */
  predicate Created(preferences: map<(string, string), bool>, j: Job, s: Script) {
    (j.force || s.looksUp) && Allowed(preferences, j) && s.creates
  }

  /** One whole job as notification n: its rows and its outcome. */
  function Dispatched(preferences: map<(string, string), bool>, channels: set<string>, n: nat, j: Job, s: Script)
    : (seq<Row>, Outcome)
  {
    if !j.force && !s.looksUp then ([], Crashed)
    else if !Allowed(preferences, j) then ([], Skipped)
    else if !s.creates then ([], Crashed)
    else if j.channel !in channels then
      if s.savesMissing then ([Row(n, Failed, 1)], NoProvider) else ([], Crashed)
    else
      var (rows, o) := Attempts(n, s, 1);
      (rows, if o.DeadLettered? && !s.publishes then Crashed else o)
  }

  class NotificationDispatcher {
    const preferences: map<(string, string), bool>
    const channels: set<string>
    /** Notifications created, delivery rows and dead letters, in order. */
    var notifications: seq<Job>
    var deliveries: seq<Row>
    var deadLetters: seq<Job>

    constructor (preferences: map<(string, string), bool>, channels: set<string>)
      ensures this.preferences == preferences && this.channels == channels
      ensures notifications == [] && deliveries == [] && deadLetters == []
    {
      this.preferences, this.channels := preferences, channels;
      notifications, deliveries, deadLetters := [], [], [];
    }

    method Dispatch(j: Job, s: Script) returns (o: Outcome)
      modifies this
      ensures var (rows, w) := Dispatched(preferences, channels, |old(notifications)|, j, s);
        && o == w && deliveries == old(deliveries) + rows
        && notifications == old(notifications) + (if Created(preferences, j, s) then [j] else [])
        && deadLetters == old(deadLetters) + (if w.DeadLettered? then [j] else [])
    {
      if !j.force {
        if !s.looksUp {
          return Crashed;
        }
        var enabled := true;
        if (j.user, j.channel) in preferences {
          enabled := preferences[(j.user, j.channel)];
        }
        if !enabled {
          return Skipped;
        }
      }
      if !s.creates {
        return Crashed;
      }
      var n := |notifications|;
      notifications := notifications + [j];
      if j.channel !in channels {
        if !s.savesMissing {
          return Crashed;
        }
        deliveries := deliveries + [Row(n, Failed, 1)];
        return NoProvider;
      }
      var attempt := 1;
      while attempt <= MAX_ATTEMPTS
        invariant 1 <= attempt <= MAX_ATTEMPTS + 1
        invariant notifications == old(notifications) + [j] && deadLetters == old(deadLetters)
        invariant old(deliveries) + Attempts(n, s, 1).0 == deliveries + Attempts(n, s, attempt).0
        invariant Attempts(n, s, 1).1 == Attempts(n, s, attempt).1
      {
        if s.sends(attempt) && s.savesSent(attempt) {
          deliveries := deliveries + [Row(n, Sent, attempt)];
          return Delivered;
        }
        if !s.savesFailure(attempt) {
          return Crashed;
        }
        deliveries := deliveries + [Row(n, if attempt >= MAX_ATTEMPTS then Dlq else Failed, attempt)];
        attempt := attempt + 1;
      }
      if !s.publishes {
        return Crashed;
      }
      deadLetters := deadLetters + [j];
      o := DeadLettered;
    }
  }

  /** Every call but provider.send succeeds. */
  predicate Writes(s: Script) {
    && s.looksUp && s.creates && s.savesMissing && s.publishes
    && (s.savesSent(1) && s.savesSent(2) && s.savesSent(3))
    && (s.savesFailure(1) && s.savesFailure(2) && s.savesFailure(3))
  }

  /** All three attempts fail. */
  predicate AllFail(s: Script) {
    !s.sends(1) && !s.sends(2) && !s.sends(3)
  }

  /** The attempt that ends a job: the first that succeeds, or the third. */
  function LastAttempt(s: Script): (k: nat)
    ensures 1 <= k <= MAX_ATTEMPTS
  {
    if s.sends(1) then 1 else if s.sends(2) then 2 else 3
  }

  /**
    With delivery writes succeeding, a job with a provider leaves rows 1..k with
    k at most three, every row but the last failed; it is dead-lettered exactly
    when all three attempts failed, and delivered otherwise.
  */
  lemma RetryShape(n: nat, s: Script)
    requires Writes(s)
    ensures var (rows, o) := Attempts(n, s, 1);
      && |rows| == LastAttempt(s)
      && (forall i :: 0 <= i < |rows| ==> rows[i].notification == n && rows[i].attempts == i + 1)
      && (forall i :: 0 <= i < |rows| - 1 ==> rows[i].status == Failed)
      && (o.DeadLettered? <==> AllFail(s))
      && (o.Delivered? <==> !o.DeadLettered?)
      && rows[|rows| - 1].status == (if o.Delivered? then Sent else Dlq)
  {
    var third := Attempts(n, s, 3);
    assert Attempts(n, s, 4) == ([], DeadLettered);
    assert third.0 == [Row(n, if s.sends(3) then Sent else Dlq, 3)];
    var second := Attempts(n, s, 2);
    assert second.0 == if s.sends(2) then [Row(n, Sent, 2)] else [Row(n, Failed, 2)] + third.0;
  }

  /** Each job ends in exactly one way, and a forced one is never skipped. */
  lemma OneOutcome(preferences: map<(string, string), bool>, channels: set<string>, n: nat, j: Job, s: Script)
    requires Writes(s)
    ensures var o := Dispatched(preferences, channels, n, j, s).1;
      && (o.Skipped? <==> !Allowed(preferences, j)) && (j.force ==> !o.Skipped?)
      && (o.NoProvider? <==> Allowed(preferences, j) && j.channel !in channels)
      && (o.DeadLettered? <==> Allowed(preferences, j) && j.channel in channels && AllFail(s))
      && !o.Crashed?
  {
    RetryShape(n, s);
  }

  // ----- what a dispatch does, whichever calls throw -----

  /** The user turned the channel off: without a stored preference every channel is on. */
  predicate Muted(preferences: map<(string, string), bool>, j: Job) {
    !j.force && (j.user, j.channel) in preferences && preferences[(j.user, j.channel)] == false
  }

  predicate SentAt(s: Script, k: nat) {
    s.sends(k) && s.savesSent(k)
  }

  /** Attempts 1 to k - 1 each failed and were recorded as failed. */
  predicate FailedBefore(s: Script, k: nat) {
    forall i: nat :: 1 <= i < k ==> !SentAt(s, i) && s.savesFailure(i)
  }

  /** Row i is that of attempt i + 1: failed, or on the third attempt dead. */
  predicate FailureRows(rows: seq<Row>, n: nat) {
    forall i :: 0 <= i < |rows| ==>
      rows[i].notification == n && rows[i].attempts == i + 1 && rows[i].status == (if i == 2 then Dlq else Failed)
  }

  /** The loop ends with the first attempt sent and recorded, with a failure that is not recorded, or after three. */
  ghost predicate LoopMeans(n: nat, s: Script, rows: seq<Row>, o: Outcome) {
    && (o == Delivered ==>
          1 <= |rows| <= 3 && FailedBefore(s, |rows|) && SentAt(s, |rows|)
          && FailureRows(rows[..|rows| - 1], n) && rows[|rows| - 1] == Row(n, Sent, |rows|))
    && (o == Crashed ==>
          |rows| < 3 && FailedBefore(s, |rows| + 1) && !SentAt(s, |rows| + 1) && !s.savesFailure(|rows| + 1)
          && FailureRows(rows, n))
    && (o == DeadLettered ==> |rows| == 3 && FailedBefore(s, 4) && FailureRows(rows, n))
    && (o == Delivered || o == Crashed || o == DeadLettered)
  }

  lemma AttemptsMean(n: nat, s: Script)
    ensures LoopMeans(n, s, Attempts(n, s, 1).0, Attempts(n, s, 1).1)
  {
    var third, second, first := Attempts(n, s, 3), Attempts(n, s, 2), Attempts(n, s, 1);
    assert Attempts(n, s, 4) == ([], DeadLettered);
    assert third.0 == if SentAt(s, 3) then [Row(n, Sent, 3)] else if s.savesFailure(3) then [Row(n, Dlq, 3)] else [];
    assert second.0 == if SentAt(s, 2) then [Row(n, Sent, 2)]
      else if s.savesFailure(2) then [Row(n, Failed, 2)] + third.0 else [];
    assert first.0 == if SentAt(s, 1) then [Row(n, Sent, 1)]
      else if s.savesFailure(1) then [Row(n, Failed, 1)] + second.0 else [];
  }

  /**
    A job is skipped exactly when it is not forced and its user turned the channel
    off; with no provider it leaves one failed row; otherwise the loop decides,
    and the job is dead-lettered when its third failure was recorded and published.
  */
  ghost predicate DispatchMeans(preferences: map<(string, string), bool>, channels: set<string>, n: nat, j: Job,
      s: Script, rows: seq<Row>, o: Outcome) {
    if !j.force && !s.looksUp then rows == [] && o == Crashed
    else if Muted(preferences, j) then rows == [] && o == Skipped
    else if !s.creates then rows == [] && o == Crashed
    else if j.channel !in channels then
      if s.savesMissing then rows == [Row(n, Failed, 1)] && o == NoProvider else rows == [] && o == Crashed
    else if FailedBefore(s, 4) then
      |rows| == 3 && FailureRows(rows, n) && o == if s.publishes then DeadLettered else Crashed
    else LoopMeans(n, s, rows, o) && o != DeadLettered
  }

  lemma DispatchedMeans(preferences: map<(string, string), bool>, channels: set<string>, n: nat, j: Job, s: Script)
    ensures var (rows, o) := Dispatched(preferences, channels, n, j, s);
      DispatchMeans(preferences, channels, n, j, s, rows, o)
    ensures Created(preferences, j, s) <==> (j.force || s.looksUp) && !Muted(preferences, j) && s.creates
  {
    AttemptsMean(n, s);
    var (rows, o) := Attempts(n, s, 1);
    if FailedBefore(s, 4) {
      assert !SentAt(s, 1) && !SentAt(s, 2) && !SentAt(s, 3);
      assert s.savesFailure(1) && s.savesFailure(2) && s.savesFailure(3);
    }
  }

  // ----- job streams -----

  datatype Log = Log(notifications: nat, rows: seq<Row>, deadLetters: seq<Job>, outcomes: seq<Outcome>)

  function Stream(preferences: map<(string, string), bool>, channels: set<string>, jobs: seq<(Job, Script)>): Log {
    if jobs == [] then Log(0, [], [], [])
    else
      var l := Stream(preferences, channels, jobs[..|jobs| - 1]);
      var (j, s) := jobs[|jobs| - 1];
      var (rows, o) := Dispatched(preferences, channels, l.notifications, j, s);
      Log(if Created(preferences, j, s) then l.notifications + 1 else l.notifications, l.rows + rows,
          if o.DeadLettered? then l.deadLetters + [j] else l.deadLetters, l.outcomes + [o])
  }

  /** How many jobs of the stream get a notification. */
  function CountCreated(preferences: map<(string, string), bool>, jobs: seq<(Job, Script)>): nat {
    if jobs == [] then 0
    else
      var (j, s) := jobs[|jobs| - 1];
      CountCreated(preferences, jobs[..|jobs| - 1])
      + if (j.force || s.looksUp) && !Muted(preferences, j) && s.creates then 1 else 0
  }

  lemma {:induction false} StreamNumbers(preferences: map<(string, string), bool>, channels: set<string>,
      jobs: seq<(Job, Script)>)
    ensures Stream(preferences, channels, jobs).notifications == CountCreated(preferences, jobs)
  {
    if jobs == [] {
    } else {
      StreamNumbers(preferences, channels, jobs[..|jobs| - 1]);
      DispatchedMeans(preferences, channels, 0, jobs[|jobs| - 1].0, jobs[|jobs| - 1].1);
    }
  }

  /** The rows of one notification, in order. */
  function RowsOf(rows: seq<Row>, n: nat): seq<Row> {
    if rows == [] then []
    else RowsOf(rows[..|rows| - 1], n) + (if rows[|rows| - 1].notification == n then [rows[|rows| - 1]] else [])
  }

  lemma {:induction false} RowsOfAppend(a: seq<Row>, b: seq<Row>, n: nat)
    ensures RowsOf(a + b, n) == RowsOf(a, n) + RowsOf(b, n)
  {
    if b == [] {
      assert a + b == a;
    } else {
      assert (a + b)[..|a + b| - 1] == a + b[..|b| - 1];
      RowsOfAppend(a, b[..|b| - 1], n);
    }
  }

  lemma {:induction false} RowsOfOne(rows: seq<Row>, m: nat, n: nat)
    requires forall i :: 0 <= i < |rows| ==> rows[i].notification == m
    ensures RowsOf(rows, n) == if n == m then rows else []
  {
    if rows == [] {
    } else {
      RowsOfOne(rows[..|rows| - 1], m, n);
    }
  }

  /** The rows of a notification are numbered 1..k, at most three, all but the last failed. */
  ghost predicate WellNumbered(rows: seq<Row>) {
    && |rows| <= MAX_ATTEMPTS
    && (forall i :: 0 <= i < |rows| ==> rows[i].attempts == i + 1)
    && (forall i :: 0 <= i < |rows| - 1 ==> rows[i].status == Failed)
  }

  lemma DispatchedRows(preferences: map<(string, string), bool>, channels: set<string>, n: nat, j: Job, s: Script)
    ensures var rows := Dispatched(preferences, channels, n, j, s).0;
      WellNumbered(rows) && (forall i :: 0 <= i < |rows| ==> rows[i].notification == n)
      && (!Created(preferences, j, s) ==> rows == [])
  {
  }

  /** Appending the rows of notification m, not seen before, keeps every numbering. */
  lemma AppendKeeps(earlier: seq<Row>, rows: seq<Row>, m: nat, n: nat)
    requires WellNumbered(RowsOf(earlier, n)) && (n >= m ==> RowsOf(earlier, n) == [])
    requires WellNumbered(rows) && forall i :: 0 <= i < |rows| ==> rows[i].notification == m
    ensures WellNumbered(RowsOf(earlier + rows, n)) && (n > m ==> RowsOf(earlier + rows, n) == [])
    ensures rows == [] && n >= m ==> RowsOf(earlier + rows, n) == []
  {
    RowsOfAppend(earlier, rows, n);
    RowsOfOne(rows, m, n);
    if n == m {
      assert [] + rows == rows;
    } else {
      assert RowsOf(earlier, n) + [] == RowsOf(earlier, n);
    }
  }

  /**
    For every stream of jobs and every pattern of failing calls: each
    notification's rows are well numbered, and nothing belongs to one not created.
  */
  lemma {:induction false} StreamRows(preferences: map<(string, string), bool>, channels: set<string>,
      jobs: seq<(Job, Script)>, n: nat)
    ensures var l := Stream(preferences, channels, jobs);
      WellNumbered(RowsOf(l.rows, n)) && (n >= l.notifications ==> RowsOf(l.rows, n) == [])
      && |l.outcomes| == |jobs|
  {
    if jobs == [] {
    } else {
      var l := Stream(preferences, channels, jobs[..|jobs| - 1]);
      var (j, s) := jobs[|jobs| - 1];
      StreamRows(preferences, channels, jobs[..|jobs| - 1], n);
      DispatchedRows(preferences, channels, l.notifications, j, s);
      var (rows, o) := Dispatched(preferences, channels, l.notifications, j, s);
      AppendKeeps(l.rows, rows, l.notifications, n);
    }
  }

  /** The jobs whose outcome is dead-lettered, in order. */
  function Dead(jobs: seq<(Job, Script)>, outcomes: seq<Outcome>): seq<Job>
    requires |outcomes| == |jobs|
  {
    if jobs == [] then []
    else
      var earlier := Dead(jobs[..|jobs| - 1], outcomes[..|jobs| - 1]);
      if outcomes[|jobs| - 1].DeadLettered? then earlier + [jobs[|jobs| - 1].0] else earlier
  }

  /** The job is wanted, has a provider and fails three times. */
  predicate Dies(preferences: map<(string, string), bool>, channels: set<string>, j: Job, s: Script) {
    Allowed(preferences, j) && j.channel in channels && AllFail(s)
  }

  ghost predicate DeadAgree(preferences: map<(string, string), bool>, channels: set<string>, jobs: seq<(Job, Script)>,
      l: Log) {
    && |l.outcomes| == |jobs| && l.deadLetters == Dead(jobs, l.outcomes)
    && forall i :: 0 <= i < |jobs| ==>
      (l.outcomes[i].DeadLettered? <==> Dies(preferences, channels, jobs[i].0, jobs[i].1))
  }

  /** The dead-letter queue receives exactly the jobs whose three attempts failed, in order. */
  lemma {:induction false} DeadLettersExact(preferences: map<(string, string), bool>, channels: set<string>,
      jobs: seq<(Job, Script)>)
    requires forall i :: 0 <= i < |jobs| ==> Writes(jobs[i].1)
    ensures DeadAgree(preferences, channels, jobs, Stream(preferences, channels, jobs))
  {
    if jobs == [] {
    } else {
      var init := jobs[..|jobs| - 1];
      var (j, s) := jobs[|jobs| - 1];
      DeadLettersExact(preferences, channels, init);
      OneMoreJob(preferences, channels, Stream(preferences, channels, init), j, s);
      DeadAppend(preferences, channels, jobs, Stream(preferences, channels, init), Stream(preferences, channels, jobs));
    }
  }

  lemma OneMoreJob(preferences: map<(string, string), bool>, channels: set<string>, l: Log, j: Job, s: Script)
    requires Writes(s)
    ensures Dispatched(preferences, channels, l.notifications, j, s).1.DeadLettered? <==>
      Dies(preferences, channels, j, s)
  {
    OneOutcome(preferences, channels, l.notifications, j, s);
  }

  lemma DeadAppend(preferences: map<(string, string), bool>, channels: set<string>, jobs: seq<(Job, Script)>, l: Log,
      l': Log)
    requires jobs != [] && DeadAgree(preferences, channels, jobs[..|jobs| - 1], l)
    requires |l'.outcomes| == |jobs| && l'.outcomes[..|jobs| - 1] == l.outcomes
    requires var (j, s) := jobs[|jobs| - 1];
      var dead := l'.outcomes[|jobs| - 1].DeadLettered?;
      && (dead <==> Dies(preferences, channels, j, s))
      && l'.deadLetters == if dead then l.deadLetters + [j] else l.deadLetters
    ensures DeadAgree(preferences, channels, jobs, l')
  {
    var init := jobs[..|jobs| - 1];
    forall i | 0 <= i < |jobs|
      ensures l'.outcomes[i].DeadLettered? <==> Dies(preferences, channels, jobs[i].0, jobs[i].1)
    {
      if i < |init| { assert jobs[i] == init[i] && l'.outcomes[i] == l.outcomes[i]; }
    }
  }
}
