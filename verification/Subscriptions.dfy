/**
  Status messages when handlers interleave at every await: exactly which
  connection makes a socket hear a message twice, or not at all.
*/
module Subscriptions {
  import opened Common
  import opened ConnectionRegistry

  // ----- where a user's one subscription is -----

  ghost predicate HasListener(s: State, u: UserId, j: SocketId) {
    j in s.listeners && s.listeners[j] == u
  }

  ghost predicate IsSubscribing(s: State, u: UserId, k: SocketId) {
    k in s.sockets && s.sockets[k].user == u && s.sockets[k].opening.Subscribing?
  }

  ghost predicate IsUnsubscribing(s: State, u: UserId, k: SocketId) {
    k in s.sockets && s.sockets[k].user == u && s.sockets[k].closing.Unsubscribing?
  }

  ghost predicate NoneSubscribing(s: State, u: UserId) {
    forall k :: !IsSubscribing(s, u, k)
  }

  ghost predicate NoneUnsubscribing(s: State, u: UserId) {
    forall k :: !IsUnsubscribing(s, u, k)
  }

  ghost predicate NoListener(s: State, u: UserId) {
    forall j :: !HasListener(s, u, j)
  }

  /** No subscription, and no socket. */
  ghost predicate Absent(s: State, u: UserId) {
    && u !in s.byUser && u !in s.unsubscribers && u !in s.channels && NoListener(s, u)
    && NoneSubscribing(s, u) && NoneUnsubscribing(s, u)
  }

  /** Socket j, the user's only one if still registered, awaits the subscription. */
  ghost predicate Pending(s: State, u: UserId, j: SocketId) {
    && u !in s.unsubscribers && SocketsOf(s, u) <= {j} && NoneUnsubscribing(s, u)
    && (forall i :: HasListener(s, u, i) <==> i == j) && (forall i :: IsSubscribing(s, u, i) <==> i == j)
  }

  /** The subscription stands: one listener, named by the unsubscriber, on a live channel. */
  ghost predicate Served(s: State, u: UserId) {
    && u in s.unsubscribers && u in s.channels && (forall i :: HasListener(s, u, i) <==> i == s.unsubscribers[u])
    && NoneSubscribing(s, u) && NoneUnsubscribing(s, u)
  }

  /** Socket c, the user's last, awaits the end of the subscription. */
  ghost predicate Leaving(s: State, u: UserId, c: SocketId) {
    && u in s.unsubscribers && u !in s.byUser && NoListener(s, u) && NoneSubscribing(s, u)
    && (forall i :: IsUnsubscribing(s, u, i) <==> i == c)
  }

  ghost predicate Orderly(s: State, u: UserId) {
    Absent(s, u) || Served(s, u) || (exists j :: Pending(s, u, j)) || exists c :: Leaving(s, u, c)
  }

  ghost predicate AllOrderly(s: State) {
    forall u :: Orderly(s, u)
  }

  /** A socket is admitted while a subscribe or an unsubscribe of its user is pending. */
  ghost predicate Collides(s: State, caps: Caps, a: Action) {
    && a.Connect? && Admits(s, caps, a.socket, a.user, a.ip)
    && exists k :: IsSubscribing(s, a.user, k) || IsUnsubscribing(s, a.user, k)
  }

  // ----- steps and users -----

  /** What concerns user u is the same in both states. */
  ghost predicate SameFor(s: State, s': State, u: UserId) {
    && (u in s'.byUser <==> u in s.byUser) && SocketsOf(s', u) == SocketsOf(s, u)
    && (u in s'.unsubscribers <==> u in s.unsubscribers)
    && (u in s.unsubscribers ==> s'.unsubscribers[u] == s.unsubscribers[u])
    && (u in s'.channels <==> u in s.channels)
    && (forall j :: HasListener(s', u, j) <==> HasListener(s, u, j))
    && (forall k :: IsSubscribing(s', u, k) <==> IsSubscribing(s, u, k))
    && (forall k :: IsUnsubscribing(s', u, k) <==> IsUnsubscribing(s, u, k))
  }

  lemma SameStaysOrderly(s: State, s': State, u: UserId)
    requires SameFor(s, s', u)
    ensures Orderly(s, u) <==> Orderly(s', u)
  {
    assert forall j :: Pending(s, u, j) <==> Pending(s', u, j);
    assert forall c :: Leaving(s, u, c) <==> Leaving(s', u, c);
  }

  /** Only socket k, of user v, and what belongs to v differ. */
  ghost predicate OnlyTouches(s: State, s': State, k: SocketId, v: UserId) {
    && (k in s.sockets ==> s.sockets[k].user == v) && (k in s'.sockets ==> s'.sockets[k].user == v)
    && (forall j :: j != k ==>
      (j in s.sockets <==> j in s'.sockets) && (j in s.sockets ==> s'.sockets[j] == s.sockets[j]))
    && (forall u | u != v :: (u in s.byUser <==> u in s'.byUser) && (u in s.byUser ==> s'.byUser[u] == s.byUser[u]))
    && (forall u | u != v :: u in s.unsubscribers <==> u in s'.unsubscribers)
    && (forall u | u != v && u in s.unsubscribers :: s'.unsubscribers[u] == s.unsubscribers[u])
    && (forall u :: u != v ==> (u in s.channels <==> u in s'.channels))
    && (forall u, j :: u != v ==> (HasListener(s, u, j) <==> HasListener(s', u, j)))
  }

  lemma OpenTouches(s: State, caps: Caps, k: SocketId, v: UserId, ip: Ip)
    requires Admits(s, caps, k, v, ip) && Owned(s)
    ensures OnlyTouches(s, Open(s, caps, k, v, ip), k, v)
  {}

  lemma SubscribedTouches(s: State, k: SocketId)
    requires k in s.sockets
    ensures OnlyTouches(s, Subscribed(s, k), k, s.sockets[k].user)
  {}

  lemma OnlineTouches(s: State, k: SocketId)
    requires k in s.sockets
    ensures OnlyTouches(s, MarkedOnline(s, k), k, s.sockets[k].user)
  {}

  lemma CloseTouches(s: State, k: SocketId)
    requires k in s.sockets
    ensures OnlyTouches(s, Close(s, k), k, s.sockets[k].user)
  {}

  lemma UnsubscribedTouches(s: State, k: SocketId)
    requires k in s.sockets
    ensures OnlyTouches(s, Unsubscribed(s, k), k, s.sockets[k].user)
  {}

  lemma OfflineTouches(s: State, s': State, k: SocketId)
    requires k in s.sockets && Owned(s)
    requires var u := s.sockets[k].user;
      && u in s.byUser && s'.unsubscribers == s.unsubscribers && s'.channels == s.channels
      && (s'.byUser == Without(s.byUser, u) || s'.byUser == s.byUser[u := s.byUser[u] - {k}])
      && (s'.listeners == s.listeners
          || (u in s.unsubscribers && s'.listeners == Without(s.listeners, s.unsubscribers[u])))
    requires k in s'.sockets && s'.sockets == s.sockets[k := s.sockets[k].(closing := s'.sockets[k].closing)]
    ensures OnlyTouches(s, s', k, s.sockets[k].user)
  {}

  // ----- listeners have owners -----

  /** Listeners and unsubscribers are named after sockets of their own user. */
  ghost predicate Owned(s: State) {
    && (forall j :: j in s.listeners ==> j in s.sockets && s.sockets[j].user == s.listeners[j])
    && (forall v :: v in s.unsubscribers ==> s.unsubscribers[v] in s.sockets && s.sockets[s.unsubscribers[v]].user == v)
  }

  /** A step that removes listeners and unsubscribers, or adds them for socket k. */
  lemma KeepsOwned(s: State, s': State, k: SocketId)
    requires Owned(s) && k in s'.sockets
    requires forall j :: j in s.sockets ==> j in s'.sockets && s'.sockets[j].user == s.sockets[j].user
    requires forall j :: j in s'.listeners ==>
      (j in s.listeners && s'.listeners[j] == s.listeners[j]) || (j == k && s'.listeners[j] == s'.sockets[k].user)
    requires forall v :: v in s'.unsubscribers ==>
      (v in s.unsubscribers && s'.unsubscribers[v] == s.unsubscribers[v])
          || (v == s'.sockets[k].user && s'.unsubscribers[v] == k)
    ensures Owned(s')
  {}

  lemma OpenKeepsOwned(s: State, caps: Caps, k: SocketId, u: UserId, ip: Ip)
    requires Owned(s)
    ensures Owned(Open(s, caps, k, u, ip))
  {
    if Admits(s, caps, k, u, ip) { KeepsOwned(s, Open(s, caps, k, u, ip), k); }
  }

  lemma SubscribeKeepsOwned(s: State, k: SocketId)
    requires Owned(s)
    ensures Owned(Subscribed(s, k))
  {
    if k in s.sockets { KeepsOwned(s, Subscribed(s, k), k); }
  }

  lemma OnlineKeepsOwned(s: State, k: SocketId)
    requires Owned(s)
    ensures Owned(MarkedOnline(s, k))
  {
    if k in s.sockets { KeepsOwned(s, MarkedOnline(s, k), k); }
  }

  lemma CloseKeepsOwned(s: State, k: SocketId)
    requires Owned(s)
    ensures Owned(Close(s, k))
  {
    if k in s.sockets { KeepsOwned(s, Close(s, k), k); }
  }

  lemma UnsubscribeKeepsOwned(s: State, k: SocketId)
    requires Owned(s)
    ensures Owned(Unsubscribed(s, k))
  {
    if k in s.sockets { KeepsOwned(s, Unsubscribed(s, k), k); }
  }

  lemma OfflineKeepsOwned(s: State, caps: Caps, k: SocketId)
    requires Owned(s) && UsersAgree(s, caps)
    ensures Owned(MarkedOffline(s, k))
  {
    if k in s.sockets && s.sockets[k].closing.MarkingOffline? {
      IsRegistered(s, caps, k);
      KeepsOwned(s, MarkedOffline(s, k), k);
    }
  }

  lemma IsRegistered(s: State, caps: Caps, k: SocketId)
    requires UsersAgree(s, caps) && k in s.sockets && Registers(s.sockets[k])
    ensures s.sockets[k].user in s.byUser && k in s.byUser[s.sockets[k].user]
  {
    assert k in Registered(s, s.sockets[k].user);
    assert SocketsOf(s, s.sockets[k].user) == Registered(s, s.sockets[k].user);
  }

  lemma {:induction false} StepKeepsOwned(s: State, caps: Caps, a: Action)
    requires Owned(s) && UsersAgree(s, caps)
    ensures Owned(Step(s, caps, a))
  {
    match a
    case Connect(k, u, ip) => OpenKeepsOwned(s, caps, k, u, ip);
    case SubscribeDone(k) => SubscribeKeepsOwned(s, k);
    case OnlineDone(k) => OnlineKeepsOwned(s, k);
    case Disconnect(k) => CloseKeepsOwned(s, k);
    case OfflineDone(k) => OfflineKeepsOwned(s, caps, k);
    case UnsubscribeDone(k) => UnsubscribeKeepsOwned(s, k);
  }

  // ----- the user of the step -----

  lemma OpenOwn(s: State, caps: Caps, k: SocketId, u: UserId, ip: Ip)
    requires Orderly(s, u) && Owned(s) && UsersAgree(s, caps) && Admits(s, caps, k, u, ip)
    ensures Orderly(Open(s, caps, k, u, ip), u) <==> !Collides(s, caps, Connect(k, u, ip))
  {
    var s' := Open(s, caps, k, u, ip);
    assert s'.sockets[k].user == u && s'.sockets[k].closing.NotClosed?;
    if j :| Pending(s, u, j) {
      assert IsSubscribing(s, u, j) && j != k && s'.sockets[j] == s.sockets[j];
      assert IsSubscribing(s', u, j) && IsSubscribing(s', u, k);
    } else if c :| Leaving(s, u, c) {
      assert IsUnsubscribing(s, u, c) && c != k && s'.sockets[c] == s.sockets[c];
      assert IsUnsubscribing(s', u, c);
    } else if Absent(s, u) {
      AbsentOpens(s, s', k, u);
    } else {
      ServedOpens(s, s', k, u);
    }
  }

  lemma AbsentOpens(s: State, s': State, k: SocketId, u: UserId)
    requires Absent(s, u) && k !in s.sockets
    requires s'.byUser == s.byUser[u := SocketsOf(s, u) + {k}] && s'.unsubscribers == s.unsubscribers
    requires s'.listeners == s.listeners[k := u] && s'.channels == s.channels
    requires k in s'.sockets && s'.sockets[k].user == u && s'.sockets[k].opening.Subscribing?
        && s'.sockets[k].closing.NotClosed?
    requires s'.sockets == s.sockets[k := s'.sockets[k]]
    requires k in s.listeners ==> s.listeners[k] == u
    ensures Pending(s', u, k)
  {
    assert forall i :: HasListener(s', u, i) <==> HasListener(s, u, i) || i == k;
    assert forall i :: IsSubscribing(s', u, i) <==> IsSubscribing(s, u, i) || i == k;
    assert forall i :: IsUnsubscribing(s', u, i) <==> IsUnsubscribing(s, u, i);
  }

  lemma ServedOpens(s: State, s': State, k: SocketId, u: UserId)
    requires Served(s, u) && k !in s.sockets
    requires s'.unsubscribers == s.unsubscribers && s'.listeners == s.listeners && s'.channels == s.channels
    requires k in s'.sockets && !s'.sockets[k].opening.Subscribing? && s'.sockets[k].closing.NotClosed?
    requires s'.sockets == s.sockets[k := s'.sockets[k]]
    ensures Served(s', u)
  {
    assert forall i :: HasListener(s', u, i) <==> HasListener(s, u, i);
    assert forall i :: IsSubscribing(s', u, i) <==> IsSubscribing(s, u, i);
    assert forall i :: IsUnsubscribing(s', u, i) <==> IsUnsubscribing(s, u, i);
  }

  lemma SubscribedOwn(s: State, k: SocketId)
    requires k in s.sockets && s.sockets[k].opening.Subscribing? && Orderly(s, s.sockets[k].user)
    ensures Orderly(Subscribed(s, k), s.sockets[k].user)
  {
    var u, s' := s.sockets[k].user, Subscribed(s, k);
    assert IsSubscribing(s, u, k);
    var j :| Pending(s, u, j);
    assert j == k;
    assert forall i :: HasListener(s', u, i) <==> HasListener(s, u, i);
    assert forall i :: IsSubscribing(s', u, i) <==> IsSubscribing(s, u, i) && i != k;
    assert forall i :: IsUnsubscribing(s', u, i) <==> IsUnsubscribing(s, u, i);
    assert Served(s', u);
  }

  lemma UnsubscribedOwn(s: State, k: SocketId)
    requires k in s.sockets && s.sockets[k].closing.Unsubscribing? && Orderly(s, s.sockets[k].user)
    ensures Orderly(Unsubscribed(s, k), s.sockets[k].user)
  {
    var u, s' := s.sockets[k].user, Unsubscribed(s, k);
    assert IsUnsubscribing(s, u, k);
    var c :| Leaving(s, u, c);
    assert c == k;
    assert forall i :: HasListener(s', u, i) <==> HasListener(s, u, i);
    assert forall i :: IsSubscribing(s', u, i) <==> IsSubscribing(s, u, i);
    assert forall i :: IsUnsubscribing(s', u, i) <==> IsUnsubscribing(s, u, i) && i != k;
    assert Absent(s', u);
  }

  /** Steps that change no subscription of anyone. */
  lemma QuietOwn(s: State, k: SocketId)
    requires k in s.sockets
    ensures SameFor(s, MarkedOnline(s, k), s.sockets[k].user)
  {}

  lemma OfflineOwn(s: State, caps: Caps, k: SocketId)
    requires k in s.sockets && s.sockets[k].closing.MarkingOffline? && Orderly(s, s.sockets[k].user)
        && UsersAgree(s, caps)
    ensures Orderly(MarkedOffline(s, k), s.sockets[k].user)
  {
    var u, s' := s.sockets[k].user, MarkedOffline(s, k);
    IsRegistered(s, caps, k);
    assert forall i :: IsSubscribing(s', u, i) <==> IsSubscribing(s, u, i);
    if j :| Pending(s, u, j) {
      PendingOffline(s, s', u, j, k);
    } else if Served(s, u) {
      ServedOffline(s, s', u, k);
    }
  }

  lemma PendingOffline(s: State, s': State, u: UserId, j: SocketId, k: SocketId)
    requires Pending(s, u, j) && k in s.sockets && s.sockets[k].user == u && s.sockets[k].closing.MarkingOffline?
    requires u in s.byUser && k in s.byUser[u]
    requires s'.unsubscribers == s.unsubscribers && s'.channels == s.channels && s'.listeners == s.listeners
    requires s'.byUser == Without(s.byUser, u) || s'.byUser == s.byUser[u := s.byUser[u] - {k}]
    requires s'.sockets == s.sockets[k := s.sockets[k].(closing := Closed)]
    ensures Pending(s', u, j)
  {
    assert forall i :: HasListener(s', u, i) <==> HasListener(s, u, i);
    assert forall i :: IsSubscribing(s', u, i) <==> IsSubscribing(s, u, i);
    assert forall i :: IsUnsubscribing(s', u, i) ==> IsUnsubscribing(s, u, i);
  }

  lemma ServedOffline(s: State, s': State, u: UserId, k: SocketId)
    requires Served(s, u) && k in s.sockets && s.sockets[k].user == u && s.sockets[k].closing.MarkingOffline?
    requires u in s.byUser && s'.unsubscribers == s.unsubscribers && s'.channels == s.channels
    requires var left := s.byUser[u] - {k};
      && s'.byUser == (if left != {} then s.byUser[u := left] else Without(s.byUser, u))
      && s'.listeners == (if left == {} then Without(s.listeners, s.unsubscribers[u]) else s.listeners)
      && s'.sockets == s.sockets[k := s.sockets[k].(closing := if left == {} then Unsubscribing else Closed)]
    ensures Served(s', u) || Leaving(s', u, k)
  {
    var left := s.byUser[u] - {k};
    assert forall i :: IsSubscribing(s', u, i) <==> IsSubscribing(s, u, i);
    assert forall i :: IsUnsubscribing(s', u, i) <==> IsUnsubscribing(s, u, i) || (i == k && left == {});
    assert forall i :: HasListener(s', u, i) <==> HasListener(s, u, i) && (left == {} ==> i != s.unsubscribers[u]);
  }

  // ----- one step, all users -----

  lemma OwnDecides(s: State, s': State, k: SocketId, u: UserId)
    requires AllOrderly(s) && OnlyTouches(s, s', k, u)
    ensures AllOrderly(s') <==> Orderly(s', u)
  {
    forall v | v != u ensures Orderly(s', v) {
      SameStaysOrderly(s, s', v);
    }
  }

  lemma ConnectOrderly(s: State, caps: Caps, k: SocketId, u: UserId, ip: Ip)
    requires AllOrderly(s) && Owned(s) && UsersAgree(s, caps)
    ensures AllOrderly(Open(s, caps, k, u, ip)) <==> !Collides(s, caps, Connect(k, u, ip))
  {
    if Admits(s, caps, k, u, ip) {
      OpenTouches(s, caps, k, u, ip);
      OwnDecides(s, Open(s, caps, k, u, ip), k, u);
      OpenOwn(s, caps, k, u, ip);
    }
  }

  lemma AwaitOrderly(s: State, caps: Caps, a: Action)
    requires AllOrderly(s) && Owned(s) && UsersAgree(s, caps) && !a.Connect? && a.socket in s.sockets
    ensures AllOrderly(Step(s, caps, a))
  {
    var k := a.socket;
    var u := s.sockets[k].user;
    match a {
      case SubscribeDone(_) =>
        SubscribedTouches(s, k);
        OwnDecides(s, Subscribed(s, k), k, u);
        if s.sockets[k].opening.Subscribing? { SubscribedOwn(s, k); }
      case OnlineDone(_) =>
        OnlineTouches(s, k);
        OwnDecides(s, MarkedOnline(s, k), k, u);
        QuietOwn(s, k);
        SameStaysOrderly(s, MarkedOnline(s, k), u);
      case Disconnect(_) =>
        CloseTouches(s, k);
        OwnDecides(s, Close(s, k), k, u);
        SameStaysOrderly(s, Close(s, k), u);
      case OfflineDone(_) => OfflineOrderly(s, caps, k);
      case UnsubscribeDone(_) =>
        UnsubscribedTouches(s, k);
        OwnDecides(s, Unsubscribed(s, k), k, u);
        if s.sockets[k].closing.Unsubscribing? { UnsubscribedOwn(s, k); }
    }
  }

  lemma OfflineOrderly(s: State, caps: Caps, k: SocketId)
    requires AllOrderly(s) && Owned(s) && UsersAgree(s, caps) && k in s.sockets
    ensures AllOrderly(MarkedOffline(s, k))
  {
    if s.sockets[k].closing.MarkingOffline? {
      IsRegistered(s, caps, k);
      OfflineTouches(s, MarkedOffline(s, k), k);
      OwnDecides(s, MarkedOffline(s, k), k, s.sockets[k].user);
      OfflineOwn(s, caps, k);
    }
  }

  /** One step of any handler: every user's subscription stays in order exactly unless the step collides. */
  lemma StepOrderly(s: State, caps: Caps, a: Action)
    requires AllOrderly(s) && Owned(s) && UsersAgree(s, caps)
    ensures AllOrderly(Step(s, caps, a)) <==> !Collides(s, caps, a)
  {
    if a.Connect? {
      ConnectOrderly(s, caps, a.socket, a.user, a.ip);
    } else if a.socket in s.sockets {
      AwaitOrderly(s, caps, a);
    }
  }

  // ----- what sockets hear -----

  /** Every connected, open socket hears a message of its user exactly once. */
  ghost predicate HeardOnce(s: State) {
    forall k :: k in s.sockets && s.sockets[k].opening.Connected? && s.sockets[k].closing.NotClosed? ==>
      |Deliveries(s, s.sockets[k].user, k)| == 1
  }

  lemma OrderlyIsHeard(s: State, caps: Caps)
    requires AllOrderly(s) && UsersAgree(s, caps)
    ensures HeardOnce(s)
  {
    forall k | k in s.sockets && s.sockets[k].opening.Connected? && s.sockets[k].closing.NotClosed?
      ensures |Deliveries(s, s.sockets[k].user, k)| == 1
    {
      var u := s.sockets[k].user;
      IsRegistered(s, caps, k);
      OrderlyServes(s, u, k);
      assert forall j :: j in Deliveries(s, u, k) <==> HasListener(s, u, j);
      assert Deliveries(s, u, k) == {s.unsubscribers[u]};
    }
  }

  lemma OrderlyServes(s: State, u: UserId, k: SocketId)
    requires Orderly(s, u) && k in s.sockets && s.sockets[k].user == u && s.sockets[k].opening.Connected?
    requires u in s.byUser && k in s.byUser[u]
    ensures Served(s, u)
  {
    assert k in SocketsOf(s, u) && !IsSubscribing(s, u, k);
  }

  /** The connection handler of socket k, wherever it waits, is let finish. */
  function Finish(s: State, k: SocketId): State {
    MarkedOnline(Subscribed(s, k), k)
  }

  /** After a collision the socket just admitted, once connected, hears a message twice or not at all. */
  lemma CollisionIsHeard(s: State, caps: Caps, a: Action)
    requires AllOrderly(s) && UsersAgree(s, caps) && Collides(s, caps, a)
    ensures !HeardOnce(Finish(Step(s, caps, a), a.socket))
  {
    var k, u := a.socket, a.user;
    var o := Open(s, caps, k, u, a.ip);
    assert Orderly(s, u);
    if j :| IsSubscribing(s, u, j) {
      assert Pending(s, u, j) by { var i :| Pending(s, u, i); assert i == j; }
      assert HasListener(s, u, j) && j != k;
      HearsTwice(o, u, j, k);
    } else {
      var c :| IsUnsubscribing(s, u, c);
      assert Leaving(s, u, c) by { var i :| Leaving(s, u, i); assert i == c; }
      assert u in s.unsubscribers && o.listeners == s.listeners;
      assert forall i :: HasListener(o, u, i) <==> HasListener(s, u, i);
      HearsNothing(o, u, k);
    }
  }

  lemma HearsTwice(o: State, u: UserId, j: SocketId, k: SocketId)
    requires j != k && HasListener(o, u, j) && HasListener(o, u, k) && k in SocketsOf(o, u)
    requires k in o.sockets && o.sockets[k].user == u && o.sockets[k].opening.Subscribing?
        && o.sockets[k].closing.NotClosed?
    ensures !HeardOnce(Finish(o, k))
  {
    var t := Finish(o, k);
    Finishes(o, k);
    assert j in Deliveries(t, u, k) && k in Deliveries(t, u, k);
    AtLeastTwo(Deliveries(t, u, k), j, k);
  }

  lemma AtLeastTwo(d: set<SocketId>, j: SocketId, k: SocketId)
    requires j in d && k in d && j != k
    ensures |d| >= 2
  {
    assert |d - {j}| == |d| - 1 && k in d - {j};
  }

  /** What the end of a connection handler leaves for its socket. */
  lemma Finishes(o: State, k: SocketId)
    requires k in o.sockets && !o.sockets[k].opening.Connected?
    ensures var t := Finish(o, k);
      && k in t.sockets && t.sockets[k] == o.sockets[k].(opening := Connected)
      && t.listeners == o.listeners && t.byUser == o.byUser
      && (o.sockets[k].opening.Subscribing? ==> o.sockets[k].user in t.channels)
  {}

  lemma HearsNothing(o: State, u: UserId, k: SocketId)
    requires NoListener(o, u)
    requires k in o.sockets && o.sockets[k].user == u && o.sockets[k].opening.MarkingOnline?
        && o.sockets[k].closing.NotClosed?
    ensures !HeardOnce(Finish(o, k))
  {
    var t := Finish(o, k);
    Finishes(o, k);
    assert forall i :: HasListener(t, u, i) <==> HasListener(o, u, i);
    forall i ensures i !in Deliveries(t, u, k) { assert !HasListener(t, u, i); }
    assert Deliveries(t, u, k) == {};
  }

  // ----- every interleaving -----

  ghost predicate NeverCollides(caps: Caps, acts: seq<Action>) {
    acts == [] || (NeverCollides(caps, acts[..|acts| - 1])
        && !Collides(Run(caps, acts[..|acts| - 1]), caps, acts[|acts| - 1]))
  }

  /** At every moment, whichever pending connection is let finish, every connected open socket hears once. */
  ghost predicate AlwaysHeard(caps: Caps, acts: seq<Action>) {
    (forall k :: HeardOnce(Finish(Run(caps, acts), k))) && (acts == [] || AlwaysHeard(caps, acts[..|acts| - 1]))
  }

  lemma FinishHeard(s: State, caps: Caps, k: SocketId)
    requires AllOrderly(s) && Owned(s) && Agrees(s, caps)
    ensures HeardOnce(Finish(s, k))
  {
    StepOrderly(s, caps, SubscribeDone(k));
    StepKeepsOwned(s, caps, SubscribeDone(k));
    StepAgrees(s, caps, SubscribeDone(k));
    var m := Subscribed(s, k);
    StepOrderly(m, caps, OnlineDone(k));
    StepAgrees(m, caps, OnlineDone(k));
    OrderlyIsHeard(Finish(s, k), caps);
  }

  lemma {:induction false} AlwaysOwned(caps: Caps, acts: seq<Action>)
    ensures Owned(Run(caps, acts))
  {
    if acts == [] {
    } else {
      AlwaysOwned(caps, acts[..|acts| - 1]);
      RegistryAlwaysAgrees(caps, acts[..|acts| - 1]);
      StepKeepsOwned(Run(caps, acts[..|acts| - 1]), caps, acts[|acts| - 1]);
    }
  }

  /** Out of step, every earlier collision stays heard in the run's prefixes. */
  lemma {:induction false} HeardExactly(caps: Caps, acts: seq<Action>)
    ensures NeverCollides(caps, acts) ==> AllOrderly(Run(caps, acts))
    ensures AlwaysHeard(caps, acts) <==> NeverCollides(caps, acts)
  {
    var s := Run(caps, acts);
    RegistryAlwaysAgrees(caps, acts);
    AlwaysOwned(caps, acts);
    if acts != [] {
      var m, a := Run(caps, acts[..|acts| - 1]), acts[|acts| - 1];
      HeardExactly(caps, acts[..|acts| - 1]);
      if NeverCollides(caps, acts[..|acts| - 1]) {
        AlwaysOwned(caps, acts[..|acts| - 1]);
        RegistryAlwaysAgrees(caps, acts[..|acts| - 1]);
        StepOrderly(m, caps, a);
        if Collides(m, caps, a) { CollisionIsHeard(m, caps, a); }
      }
    } else {
      assert forall u :: Absent(s, u);
    }
    if NeverCollides(caps, acts) {
      forall k ensures HeardOnce(Finish(s, k)) { FinishHeard(s, caps, k); }
    }
  }

  // ----- both failures, from the start -----

  function OneOpen(u: UserId, ip: Ip, opening: Opening, closing: Closing): State {
    State(map[u := {0}], map[ip := 1], if opening.Subscribing? then map[] else map[u := 0], map[0 := u],
          if opening.Subscribing? then {} else {u}, map[0 := Socket(u, ip, opening, closing)])
  }

  lemma OpensFirst(caps: Caps, u: UserId, ip: Ip)
    requires caps.perUser >= 2 && caps.perIp >= 2
    ensures Open(INIT, caps, 0, u, ip) == OneOpen(u, ip, Subscribing, NotClosed)
  {}

  /** A second connection of the user before the first is subscribed: both listen, and each socket hears twice. */
  lemma OverlapDeliversTwice(caps: Caps, u: UserId, ip: Ip)
    requires caps.perUser >= 2 && caps.perIp >= 2
    ensures var s := Subscribed(Subscribed(Open(Open(INIT, caps, 0, u, ip), caps, 1, u, ip), 0), 1);
      Deliveries(s, u, 0) == {0, 1} && Deliveries(s, u, 1) == {0, 1}
  {
    OpensFirst(caps, u, ip);
    var a := OneOpen(u, ip, Subscribing, NotClosed);
    assert |{0}| == 1;
    var b := Open(a, caps, 1, u, ip);
    assert Admits(a, caps, 1, u, ip) by { assert SocketsOf(a, u) == {0}; }
    assert SocketsOf(a, u) + {1} == {0, 1};
    assert b.byUser == map[u := {0, 1}] && b.listeners == map[0 := u, 1 := u];
    assert b.sockets[0] == a.sockets[0] && b.sockets[1] == Socket(u, ip, Subscribing, NotClosed);
  }

  /** The user's only socket leaves: its listener is gone, and the unsubscribe is under way. */
  function LastLeaving(u: UserId, ip: Ip): State {
    State(map[], map[ip := 1], map[u := 0], map[], {u}, map[0 := Socket(u, ip, Connected, Unsubscribing)])
  }

  /** A connection admitted while the user's last unsubscribe is pending ends connected and hears nothing. */
  lemma LateConnectHearsNothing(caps: Caps, u: UserId, ip: Ip)
    requires caps.perUser >= 2 && caps.perIp >= 2
    ensures var one := MarkedOnline(Subscribed(Open(INIT, caps, 0, u, ip), 0), 0);
      var leaving := MarkedOffline(Close(one, 0), 0);
      var s := Unsubscribed(MarkedOnline(Open(leaving, caps, 1, u, ip), 1), 0);
      && 1 in s.sockets && s.sockets[1] == Socket(u, ip, Connected, NotClosed) && Deliveries(s, u, 1) == {}
  {
    OpensFirst(caps, u, ip);
    var o := Open(LastLeaving(u, ip), caps, 1, u, ip);
    assert o.listeners == map[] && o.sockets[1] == Socket(u, ip, MarkingOnline, NotClosed);
  }
}
