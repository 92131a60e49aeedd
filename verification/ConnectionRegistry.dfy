/**
  The WebSocket gateway's registry as a protocol: sockets per user, a count per
  IP and one subscription per user, updated by connection and disconnection
  handlers that interleave at every await.
*/
module ConnectionRegistry {
  import opened Common

  type UserId = string
  type Ip = string
  type SocketId = nat

  datatype Opening = Subscribing | MarkingOnline | Connected
  datatype Closing = NotClosed | MarkingOffline | Unsubscribing | Closed

  /** An admitted socket, and where its two handlers are. */
  datatype Socket = Socket(user: UserId, ip: Ip, opening: Opening, closing: Closing)

  datatype Caps = Caps(perUser: nat, perIp: nat)

  /**
    listeners holds the message listeners registered, each under the socket whose
    handler subscribed; unsubscribers names, per user, the listener to remove;
    channels are those the Redis connection is subscribed to, one per user.
  */
  datatype State = State(byUser: map<UserId, set<SocketId>>, byIp: map<Ip, nat>,
                         unsubscribers: map<UserId, SocketId>, listeners: map<SocketId, UserId>,
                         channels: set<UserId>, sockets: map<SocketId, Socket>)

  const INIT := State(map[], map[], map[], map[], {}, map[])

  function SocketsOf(s: State, u: UserId): set<SocketId> {
    if u in s.byUser then s.byUser[u] else {}
  }

  function CountOf(s: State, ip: Ip): nat {
    if ip in s.byIp then s.byIp[ip] else 0
  }

  predicate Admits(s: State, caps: Caps, k: SocketId, u: UserId, ip: Ip) {
    k !in s.sockets && CountOf(s, ip) < caps.perIp && |SocketsOf(s, u)| < caps.perUser
  }

  // ----- the handlers, segment by segment -----

  /** handleConnection up to its first await, with a verified token. */
  function Open(s: State, caps: Caps, k: SocketId, u: UserId, ip: Ip): State {
    if !Admits(s, caps, k, u, ip) then s
    else
      var first := u !in s.unsubscribers;
      State(s.byUser[u := SocketsOf(s, u) + {k}], s.byIp[ip := CountOf(s, ip) + 1], s.unsubscribers,
            if first then s.listeners[k := u] else s.listeners, s.channels,
            s.sockets[k := Socket(u, ip, if first then Subscribing else MarkingOnline, NotClosed)])
  }

  /** After subscribe resolves. */
  function Subscribed(s: State, k: SocketId): State {
    if k !in s.sockets || !s.sockets[k].opening.Subscribing? then s
    else
      s.(unsubscribers := s.unsubscribers[s.sockets[k].user := k], channels := s.channels + {s.sockets[k].user},
         sockets := s.sockets[k := s.sockets[k].(opening := MarkingOnline)])
  }

  /** After markOnline resolves. */
  function MarkedOnline(s: State, k: SocketId): State {
    if k !in s.sockets || !s.sockets[k].opening.MarkingOnline? then s
    else s.(sockets := s.sockets[k := s.sockets[k].(opening := Connected)])
  }

  /** handleDisconnect up to its first await; it is called once per socket. */
  function Close(s: State, k: SocketId): State {
    if k !in s.sockets || !s.sockets[k].closing.NotClosed? then s
    else s.(sockets := s.sockets[k := s.sockets[k].(closing := MarkingOffline)])
  }

  /** The end of handleDisconnect: one connection fewer from the address. */
  function Uncount(s: State, k: SocketId): State
    requires k in s.sockets
  {
    var ip := s.sockets[k].ip;
    var n := if ip in s.byIp then s.byIp[ip] else 1;
    s.(byIp := if n <= 1 then Without(s.byIp, ip) else s.byIp[ip := n - 1],
       sockets := s.sockets[k := s.sockets[k].(closing := Closed)])
  }

  /** After markOffline resolves. */
  function MarkedOffline(s: State, k: SocketId): State {
    if k !in s.sockets || !s.sockets[k].closing.MarkingOffline? then s
    else
      var u := s.sockets[k].user;
      if u !in s.byUser then Uncount(s, k)
      else
        var left := s.byUser[u] - {k};
        if left != {} then Uncount(s.(byUser := s.byUser[u := left]), k)
        else
          var e := s.(byUser := Without(s.byUser, u));
          if u in s.unsubscribers then
            e.(listeners := Without(s.listeners, s.unsubscribers[u]),
               sockets := s.sockets[k := s.sockets[k].(closing := Unsubscribing)])
          else Uncount(e, k)
  }

  /** After unsubscribe resolves. */
  function Unsubscribed(s: State, k: SocketId): State {
    if k !in s.sockets || !s.sockets[k].closing.Unsubscribing? then s
    else
      var u := s.sockets[k].user;
      Uncount(s.(unsubscribers := Without(s.unsubscribers, u), channels := s.channels - {u}), k)
  }

  datatype Action =
    | Connect(socket: SocketId, user: UserId, ip: Ip)
    | SubscribeDone(socket: SocketId)
    | OnlineDone(socket: SocketId)
    | Disconnect(socket: SocketId)
    | OfflineDone(socket: SocketId)
    | UnsubscribeDone(socket: SocketId)

  function Step(s: State, caps: Caps, a: Action): State {
    match a
    case Connect(k, u, ip) => Open(s, caps, k, u, ip)
    case SubscribeDone(k) => Subscribed(s, k)
    case OnlineDone(k) => MarkedOnline(s, k)
    case Disconnect(k) => Close(s, k)
    case OfflineDone(k) => MarkedOffline(s, k)
    case UnsubscribeDone(k) => Unsubscribed(s, k)
  }

  function Run(caps: Caps, acts: seq<Action>): State {
    if acts == [] then INIT else Step(Run(caps, acts[..|acts| - 1]), caps, acts[|acts| - 1])
  }

  // ----- the registry agrees with the sockets, at every await -----

  predicate Registers(x: Socket) {
    x.closing.NotClosed? || x.closing.MarkingOffline?
  }

  /** The user's sockets whose removal has not happened yet. */
  function Registered(s: State, u: UserId): set<SocketId> {
    set k | k in s.sockets && s.sockets[k].user == u && Registers(s.sockets[k])
  }

  /** The address's sockets whose disconnect has not finished. */
  function Counted(s: State, ip: Ip): set<SocketId> {
    set k | k in s.sockets && s.sockets[k].ip == ip && !s.sockets[k].closing.Closed?
  }

  ghost predicate UsersAgree(s: State, caps: Caps) {
    && (forall u :: SocketsOf(s, u) == Registered(s, u) && |SocketsOf(s, u)| <= caps.perUser)
    && (forall u :: u in s.byUser ==> s.byUser[u] != {})
  }

  ghost predicate AddressesAgree(s: State, caps: Caps) {
    && (forall ip :: CountOf(s, ip) == |Counted(s, ip)| && CountOf(s, ip) <= caps.perIp)
    && (forall ip :: ip in s.byIp ==> s.byIp[ip] > 0)
  }

  ghost predicate Agrees(s: State, caps: Caps) {
    UsersAgree(s, caps) && AddressesAgree(s, caps)
  }

  lemma OpenUsers(s: State, caps: Caps, k: SocketId, u: UserId, ip: Ip)
    requires UsersAgree(s, caps)
    ensures UsersAgree(Open(s, caps, k, u, ip), caps)
  {
    var s' := Open(s, caps, k, u, ip);
    if s' != s {
      forall v ensures SocketsOf(s', v) == Registered(s', v) && |SocketsOf(s', v)| <= caps.perUser {
        assert SocketsOf(s, v) == Registered(s, v) && |SocketsOf(s, v)| <= caps.perUser;
        assert Registered(s', v) == if v == u then Registered(s, v) + {k} else Registered(s, v);
      }
    }
  }

  lemma AddCounts(s: State, s': State, k: SocketId, sock: Socket, a: Ip)
    requires k !in s.sockets && s'.sockets == s.sockets[k := sock] && !sock.closing.Closed?
    ensures |Counted(s', a)| == |Counted(s, a)| + if a == sock.ip then 1 else 0
  {
    var before, after := Counted(s, a), Counted(s', a);
    forall j ensures j in after <==> j in before || (j == k && a == sock.ip) {}
    assert after == if a == sock.ip then before + {k} else before;
  }

  lemma OpenAddresses(s: State, caps: Caps, k: SocketId, u: UserId, ip: Ip)
    requires AddressesAgree(s, caps)
    ensures AddressesAgree(Open(s, caps, k, u, ip), caps)
  {
    var s' := Open(s, caps, k, u, ip);
    if Admits(s, caps, k, u, ip) {
      assert s'.byIp == s.byIp[ip := CountOf(s, ip) + 1];
      forall a ensures CountOf(s', a) == |Counted(s', a)| && CountOf(s', a) <= caps.perIp {
        AddCounts(s, s', k, s'.sockets[k], a);
        assert CountOf(s, a) == |Counted(s, a)| && CountOf(s, a) <= caps.perIp;
      }
    }
  }

  lemma OpenAgrees(s: State, caps: Caps, k: SocketId, u: UserId, ip: Ip)
    requires Agrees(s, caps)
    ensures Agrees(Open(s, caps, k, u, ip), caps)
  {
    OpenUsers(s, caps, k, u, ip);
    OpenAddresses(s, caps, k, u, ip);
  }

  /** A step that moves only the opening handler, or starts the closing one. */
  lemma ProgressAgrees(s: State, s': State, caps: Caps, k: SocketId)
    requires Agrees(s, caps) && s'.byUser == s.byUser && s'.byIp == s.byIp
    requires k in s.sockets && s'.sockets.Keys == s.sockets.Keys
    requires forall j :: j in s.sockets && j != k ==> s'.sockets[j] == s.sockets[j]
    requires s'.sockets[k].user == s.sockets[k].user && s'.sockets[k].ip == s.sockets[k].ip
    requires s'.sockets[k].closing == s.sockets[k].closing
      || (s.sockets[k].closing.NotClosed? && s'.sockets[k].closing.MarkingOffline?)
    ensures Agrees(s', caps)
  {
    forall u ensures Registered(s', u) == Registered(s, u) {}
    forall ip ensures Counted(s', ip) == Counted(s, ip) {}
  }

  lemma UncountAgrees(s: State, caps: Caps, k: SocketId)
    requires AddressesAgree(s, caps) && k in s.sockets && !s.sockets[k].closing.Closed?
    ensures AddressesAgree(Uncount(s, k), caps)
  {
    var s' := Uncount(s, k);
    var ip := s.sockets[k].ip;
    assert k in Counted(s, ip);
    forall a ensures CountOf(s', a) == |Counted(s', a)| && CountOf(s', a) <= caps.perIp {
      assert Counted(s', a) == if a == ip then Counted(s, a) - {k} else Counted(s, a);
      assert CountOf(s, a) <= caps.perIp;
    }
  }

  /** One socket stops being registered and leaves its user's set. */
  lemma RemovedUsers(s: State, s': State, caps: Caps, k: SocketId)
    requires UsersAgree(s, caps) && k in s.sockets && Registers(s.sockets[k]) && s.sockets[k].user in s.byUser
    requires s'.sockets.Keys == s.sockets.Keys && !Registers(s'.sockets[k])
    requires forall j :: j in s.sockets && j != k ==> s'.sockets[j] == s.sockets[j]
    requires var u := s.sockets[k].user;
      s'.byUser == if s.byUser[u] - {k} != {} then s.byUser[u := s.byUser[u] - {k}] else Without(s.byUser, u)
    ensures UsersAgree(s', caps)
  {
    var u := s.sockets[k].user;
    forall v ensures SocketsOf(s', v) == Registered(s', v) && |SocketsOf(s', v)| <= caps.perUser {
      assert SocketsOf(s, v) == Registered(s, v) && |SocketsOf(s, v)| <= caps.perUser;
      assert Registered(s', v) == if v == u then Registered(s, v) - {k} else Registered(s, v);
    }
  }

  lemma MarkedOfflineUsers(s: State, caps: Caps, k: SocketId)
    requires Agrees(s, caps) && k in s.sockets && s.sockets[k].closing.MarkingOffline?
    ensures UsersAgree(MarkedOffline(s, k), caps)
  {
    var s' := MarkedOffline(s, k);
    var u := s.sockets[k].user;
    assert k in Registered(s, u) && SocketsOf(s, u) == Registered(s, u);
    assert s'.byUser == (if s.byUser[u] - {k} != {} then s.byUser[u := s.byUser[u] - {k}] else Without(s.byUser, u));
    assert s'.sockets.Keys == s.sockets.Keys && !Registers(s'.sockets[k]);
    RemovedUsers(s, s', caps, k);
  }

  lemma MarkedOfflineAddresses(s: State, caps: Caps, k: SocketId)
    requires Agrees(s, caps) && k in s.sockets && s.sockets[k].closing.MarkingOffline?
    ensures AddressesAgree(MarkedOffline(s, k), caps)
  {
    var u := s.sockets[k].user;
    var s' := MarkedOffline(s, k);
    if s'.sockets[k].closing.Unsubscribing? {
      forall ip ensures Counted(s', ip) == Counted(s, ip) {}
    } else {
      var m := s.(byUser := s'.byUser);
      forall ip ensures Counted(m, ip) == Counted(s, ip) {}
      UncountAgrees(m, caps, k);
      assert s' == Uncount(m, k);
    }
  }

  lemma UnsubscribedAgrees(s: State, caps: Caps, k: SocketId)
    requires Agrees(s, caps)
    ensures Agrees(Unsubscribed(s, k), caps)
  {
    var s' := Unsubscribed(s, k);
    if s' != s {
      var m := s.(unsubscribers := s'.unsubscribers, channels := s'.channels);
      forall ip ensures Counted(m, ip) == Counted(s, ip) {}
      UncountAgrees(m, caps, k);
      forall u ensures Registered(s', u) == Registered(s, u) {}
    }
  }

  lemma StepAgrees(s: State, caps: Caps, a: Action)
    requires Agrees(s, caps)
    ensures Agrees(Step(s, caps, a), caps)
  {
    match a
    case Connect(k, u, ip) => OpenAgrees(s, caps, k, u, ip);
    case SubscribeDone(k) => if Subscribed(s, k) != s { ProgressAgrees(s, Subscribed(s, k), caps, k); }
    case OnlineDone(k) => if MarkedOnline(s, k) != s { ProgressAgrees(s, MarkedOnline(s, k), caps, k); }
    case Disconnect(k) => if Close(s, k) != s { ProgressAgrees(s, Close(s, k), caps, k); }
    case OfflineDone(k) =>
      if k in s.sockets && s.sockets[k].closing.MarkingOffline? {
        MarkedOfflineUsers(s, caps, k);
        MarkedOfflineAddresses(s, caps, k);
      }
    case UnsubscribeDone(k) => UnsubscribedAgrees(s, caps, k);
  }

  /**
    In every interleaving of handlers: each user's set holds exactly the admitted
    sockets not yet removed, each count is the number of admitted sockets whose
    disconnect has not finished, no entry is empty, and both caps hold.
  */
  lemma {:induction false} RegistryAlwaysAgrees(caps: Caps, acts: seq<Action>)
    ensures Agrees(Run(caps, acts), caps)
  {
    if acts == [] {
    } else {
      RegistryAlwaysAgrees(caps, acts[..|acts| - 1]);
      StepAgrees(Run(caps, acts[..|acts| - 1]), caps, acts[|acts| - 1]);
    }
  }

  // ----- subscriptions, with handlers run one at a time -----

  function OpenWhole(s: State, caps: Caps, k: SocketId, u: UserId, ip: Ip): State {
    if k in s.sockets then s else MarkedOnline(Subscribed(Open(s, caps, k, u, ip), k), k)
  }

  function CloseWhole(s: State, k: SocketId): State {
    Unsubscribed(MarkedOffline(Close(s, k), k), k)
  }

  datatype Handler = Opened(socket: SocketId, user: UserId, ip: Ip) | Shut(socket: SocketId)

  function Handle(s: State, caps: Caps, h: Handler): State {
    match h
    case Opened(k, u, ip) => OpenWhole(s, caps, k, u, ip)
    case Shut(k) => CloseWhole(s, k)
  }

  function HandleAll(caps: Caps, hs: seq<Handler>): State {
    if hs == [] then INIT else Handle(HandleAll(caps, hs[..|hs| - 1]), caps, hs[|hs| - 1])
  }

  /** Between handlers, every socket is either connected or closed. */
  ghost predicate Settled(s: State) {
    forall k :: k in s.sockets ==>
      s.sockets[k].opening.Connected? && (s.sockets[k].closing.NotClosed? || s.sockets[k].closing.Closed?)
  }

  /** One listener per user with sockets, named by the user's unsubscriber; none else. */
  ghost predicate OneSubscription(s: State) {
    && s.unsubscribers.Keys == s.byUser.Keys == s.channels
    && (forall u :: u in s.unsubscribers ==> s.unsubscribers[u] in s.listeners && s.listeners[s.unsubscribers[u]] == u)
    && (forall j :: j in s.listeners ==> s.listeners[j] in s.unsubscribers && s.unsubscribers[s.listeners[j]] == j)
    && (forall j :: j in s.listeners ==> j in s.sockets)
  }

  ghost predicate Quiet(s: State, caps: Caps) {
    Agrees(s, caps) && Settled(s) && OneSubscription(s)
  }

  /** What a whole connection leaves behind. */
  lemma OpenWholeForm(s: State, caps: Caps, k: SocketId, u: UserId, ip: Ip)
    ensures var s' := OpenWhole(s, caps, k, u, ip);
      if !Admits(s, caps, k, u, ip) then s' == s
      else
        && s'.sockets == s.sockets[k := Socket(u, ip, Connected, NotClosed)]
        && s'.byUser == s.byUser[u := SocketsOf(s, u) + {k}]
        && s'.unsubscribers == (if u in s.unsubscribers then s.unsubscribers else s.unsubscribers[u := k])
        && s'.listeners == (if u in s.unsubscribers then s.listeners else s.listeners[k := u])
        && s'.channels == (if u in s.unsubscribers then s.channels else s.channels + {u})
  {}

  lemma {:induction false} OpenWholeAgrees(s: State, caps: Caps, k: SocketId, u: UserId, ip: Ip)
    requires Agrees(s, caps)
    ensures Agrees(OpenWhole(s, caps, k, u, ip), caps)
  {
    var o := Open(s, caps, k, u, ip);
    StepAgrees(s, caps, Connect(k, u, ip));
    StepAgrees(o, caps, SubscribeDone(k));
    StepAgrees(Subscribed(o, k), caps, OnlineDone(k));
  }

  lemma OpenWholeSubscribes(s: State, s': State, k: SocketId, u: UserId)
    requires OneSubscription(s) && k !in s.sockets
    requires s'.sockets.Keys == s.sockets.Keys + {k} && s'.byUser.Keys == s.byUser.Keys + {u}
    requires s'.unsubscribers == (if u in s.unsubscribers then s.unsubscribers else s.unsubscribers[u := k])
    requires s'.listeners == (if u in s.unsubscribers then s.listeners else s.listeners[k := u])
    requires s'.channels == (if u in s.unsubscribers then s.channels else s.channels + {u})
    ensures OneSubscription(s')
  {}

  lemma OpenWholeQuiet(s: State, caps: Caps, k: SocketId, u: UserId, ip: Ip)
    requires Quiet(s, caps)
    ensures Quiet(OpenWhole(s, caps, k, u, ip), caps)
  {
    OpenWholeForm(s, caps, k, u, ip);
    OpenWholeAgrees(s, caps, k, u, ip);
    if Admits(s, caps, k, u, ip) { AdmittedQuiet(s, OpenWhole(s, caps, k, u, ip), caps, k, u, ip); }
  }

  lemma AdmittedQuiet(s: State, s': State, caps: Caps, k: SocketId, u: UserId, ip: Ip)
    requires Settled(s) && OneSubscription(s) && Agrees(s', caps) && k !in s.sockets
    requires s'.sockets == s.sockets[k := Socket(u, ip, Connected, NotClosed)]
    requires s'.byUser == s.byUser[u := SocketsOf(s, u) + {k}]
    requires s'.unsubscribers == (if u in s.unsubscribers then s.unsubscribers else s.unsubscribers[u := k])
    requires s'.listeners == (if u in s.unsubscribers then s.listeners else s.listeners[k := u])
    requires s'.channels == (if u in s.unsubscribers then s.channels else s.channels + {u})
    ensures Quiet(s', caps)
  {
    OpenWholeSubscribes(s, s', k, u);
    AdmittedSettled(s, s', k, u, ip);
  }

  lemma AdmittedSettled(s: State, s': State, k: SocketId, u: UserId, ip: Ip)
    requires Settled(s) && s'.sockets == s.sockets[k := Socket(u, ip, Connected, NotClosed)]
    ensures Settled(s')
  {}

  lemma ThreeSteps(s: State, c: State, m: State, t: State, caps: Caps, k: SocketId)
    requires Agrees(s, caps)
    requires c == Step(s, caps, Disconnect(k)) && m == Step(c, caps, OfflineDone(k))
        && t == Step(m, caps, UnsubscribeDone(k))
    ensures Agrees(t, caps)
  {
    StepAgrees(s, caps, Disconnect(k));
    StepAgrees(c, caps, OfflineDone(k));
    StepAgrees(m, caps, UnsubscribeDone(k));
  }

  lemma CloseWholeAgrees(s: State, caps: Caps, k: SocketId)
    requires Agrees(s, caps)
    ensures Agrees(CloseWhole(s, k), caps)
  {
    ThreeSteps(s, Close(s, k), MarkedOffline(Close(s, k), k), CloseWhole(s, k), caps, k);
  }

  lemma CloseWholeQuiet(s: State, caps: Caps, k: SocketId)
    requires Quiet(s, caps)
    ensures Quiet(CloseWhole(s, k), caps)
  {
    CloseWholeAgrees(s, caps, k);
    if k in s.sockets && s.sockets[k].closing.NotClosed? {
      var u := s.sockets[k].user;
      assert k in Registered(s, u) && SocketsOf(s, u) == Registered(s, u);
    } else {
    }
  }

  lemma {:induction false} AlwaysQuiet(caps: Caps, hs: seq<Handler>)
    ensures Quiet(HandleAll(caps, hs), caps)
  {
    if hs == [] {
    } else {
      var s := HandleAll(caps, hs[..|hs| - 1]);
      AlwaysQuiet(caps, hs[..|hs| - 1]);
      match hs[|hs| - 1]
      case Opened(k, u, ip) => OpenWholeQuiet(s, caps, k, u, ip);
      case Shut(k) => CloseWholeQuiet(s, caps, k);
    }
  }

  /** The listeners through which a message on u's channel reaches socket k. */
  function Deliveries(s: State, u: UserId, k: SocketId): set<SocketId> {
    set j | j in s.listeners && s.listeners[j] == u && u in s.channels && k in SocketsOf(s, u)
  }

  /**
    With handlers run one at a time: a user is subscribed exactly while a socket
    of theirs is registered, and a status message reaches every open socket of
    its user exactly once and no other socket.
  */
  lemma DeliveredOnce(caps: Caps, hs: seq<Handler>, u: UserId, k: SocketId)
    ensures var s := HandleAll(caps, hs);
      && (u in s.unsubscribers <==> SocketsOf(s, u) != {})
      && |Deliveries(s, u, k)| == if k in s.sockets && s.sockets[k].user == u && s.sockets[k].closing.NotClosed?
          then 1 else 0
  {
    AlwaysQuiet(caps, hs);
    QuietDelivers(HandleAll(caps, hs), caps, u, k);
  }

  lemma QuietDelivers(s: State, caps: Caps, u: UserId, k: SocketId)
    requires Quiet(s, caps)
    ensures u in s.unsubscribers <==> SocketsOf(s, u) != {}
    ensures if k in s.sockets && s.sockets[k].user == u && s.sockets[k].closing.NotClosed?
      then u in s.unsubscribers && Deliveries(s, u, k) == {s.unsubscribers[u]} else Deliveries(s, u, k) == {}
  {
    assert SocketsOf(s, u) == Registered(s, u);
    if k in SocketsOf(s, u) {
      assert Deliveries(s, u, k) == {s.unsubscribers[u]};
    } else {
      assert Deliveries(s, u, k) == {};
    }
  }
}
