/** The WebSocket gateway as an object whose handlers run one at a time. */
module OrderStatusGateways {
  import opened ConnectionRegistry
  import opened Common

  datatype Claims = NoClaims | Claims(userId: UserId)
  /** A socket is sent the greeting, and then status messages. */
  datatype Sent = Greeting(user: UserId) | Status(message: string)
  datatype Reply = Unauthorized | TooManyFromIp | TooManyForUser | Welcome

  class OrderStatusGateway {
    const caps: Caps
    var connectionsByUser: map<UserId, set<SocketId>>
    var connectionsByIp: map<Ip, nat>
    var unsubscribers: map<UserId, SocketId>
    /** The pub/sub client's message listeners. */
    var listeners: map<SocketId, UserId>
    /** The channels the pub/sub client is subscribed to. */
    var channels: set<UserId>
    var clients: map<SocketId, Socket>
    /** What each admitted socket was sent. */
    var sent: map<SocketId, seq<Sent>>

    constructor (caps: Caps)
      ensures Valid() && View() == INIT && this.caps == caps && sent == map[]
    {
      this.caps := caps;
      connectionsByUser, connectionsByIp, unsubscribers, listeners := map[], map[], map[], map[];
      channels, clients, sent := {}, map[], map[];
      new;
      AlwaysQuiet(caps, []);
    }

    /** Between handlers the registry is quiet, and every admitted socket has its log. */
    ghost predicate Valid()
      reads this
    {
      Quiet(View(), caps) && sent.Keys == clients.Keys
    }

    function View(): State
      reads this
    {
      State(connectionsByUser, connectionsByIp, unsubscribers, listeners, channels, clients)
    }

    /** claims are those of the verified token, if there is one. */
    method HandleConnection(k: SocketId, claims: Claims, ip: Ip) returns (r: Reply)
      requires Valid() && k !in clients
      modifies this
      ensures Valid()
      ensures sent == if r.Welcome? && claims.Claims? then old(sent)[k := [Greeting(claims.userId)]] else old(sent)
      ensures View() == if claims.NoClaims? then old(View()) else OpenWhole(old(View()), caps, k, claims.userId, ip)
      ensures r.Unauthorized? <==> claims.NoClaims?
      ensures r.TooManyFromIp? <==> claims.Claims? && |OpenFrom(old(clients), ip)| >= caps.perIp
      ensures r.TooManyForUser? <==>
        && claims.Claims? && |OpenFrom(old(clients), ip)| < caps.perIp
        && |OpenOf(old(clients), claims.userId)| >= caps.perUser
      ensures r.Welcome? ==> clients == old(clients)[k := Socket(claims.userId, ip, Connected, NotClosed)]
      ensures !r.Welcome? ==> clients == old(clients)
    {
      if claims.NoClaims? {
        return Unauthorized;
      }
      var u := claims.userId;
      RegistryCountsOpen(View(), caps, u, ip);
      var ipCount := if ip in connectionsByIp then connectionsByIp[ip] else 0;
      if ipCount >= caps.perIp {
        return TooManyFromIp;
      }
      var userSet := if u in connectionsByUser then connectionsByUser[u] else {};
      if |userSet| >= caps.perUser {
        return TooManyForUser;
      }
      Register(k, u, ip);
      OpenWholeParts(old(View()), caps, k, u, ip);
      OpenWholeQuiet(old(View()), caps, k, u, ip);
      r := Welcome;
    }

    /** An admitted socket enters the three maps, subscribes its user if need be, and is greeted. */
    method Register(k: SocketId, u: UserId, ip: Ip)
      modifies this
      ensures View() == Welcomed(old(View()), k, u, ip)
      ensures sent == old(sent)[k := [Greeting(u)]]
    {
      var userSet := if u in connectionsByUser then connectionsByUser[u] else {};
      var ipCount := if ip in connectionsByIp then connectionsByIp[ip] else 0;
      connectionsByUser := connectionsByUser[u := userSet + {k}];
      connectionsByIp := connectionsByIp[ip := ipCount + 1];
      if u !in unsubscribers {
        listeners := listeners[k := u];
        channels := channels + {u};
        unsubscribers := unsubscribers[u := k];
      }
      clients := clients[k := Socket(u, ip, Connected, NotClosed)];
      sent := sent[k := [Greeting(u)]];
    }

    /** Called once for every socket, admitted or not. */
    method HandleDisconnect(k: SocketId)
      requires Valid() && (k in clients ==> clients[k].closing.NotClosed?)
      modifies this
      ensures Valid() && sent == old(sent) && View() == CloseWhole(old(View()), k)
      ensures clients == if k in old(clients) then old(clients)[k := old(clients)[k].(closing := Closed)]
          else old(clients)
    {
      if k !in clients {
        return;
      }
      Unregister(k);
      Uncount(k);
      CloseWholeParts(old(View()), k);
      CloseWholeQuiet(old(View()), caps, k);
    }

    /** Removes the socket from its user's set, and the subscription with the last one. */
    method Unregister(k: SocketId)
      requires k in clients
      modifies this`connectionsByUser, this`listeners, this`channels, this`unsubscribers
      ensures View() == Unregistered(old(View()), k)
    {
      var u := clients[k].user;
      if u in connectionsByUser {
        var left := connectionsByUser[u] - {k};
        connectionsByUser := connectionsByUser[u := left];
        if left == {} {
          connectionsByUser := Without(connectionsByUser, u);
          assert connectionsByUser == Without(old(connectionsByUser), u);
          if u in unsubscribers {
            listeners := Without(listeners, unsubscribers[u]);
            channels := channels - {u};
            unsubscribers := Without(unsubscribers, u);
          }
        }
      }
    }

    method Uncount(k: SocketId)
      requires k in clients
      modifies this`connectionsByIp, this`clients
      ensures View() == ConnectionRegistry.Uncount(old(View()), k)
    {
      var ip := clients[k].ip;
      var n := if ip in connectionsByIp then connectionsByIp[ip] else 1;
      if n <= 1 {
        connectionsByIp := Without(connectionsByIp, ip);
      } else {
        connectionsByIp := connectionsByIp[ip := n - 1];
      }
      clients := clients[k := clients[k].(closing := Closed)];
    }

    /**
      A status message on the user's channel: every listener of the user fans it
      out, so each open socket of the user is sent it once and no other socket is.
    */
    method Deliver(u: UserId, message: string)
      requires Valid()
      modifies this`sent
      ensures Valid() && View() == old(View()) && sent.Keys == old(sent).Keys
      ensures forall k | k in sent ::
        sent[k] == old(sent)[k]
            + (if clients[k].user == u && clients[k].closing.NotClosed? then [Status(message)] else [])
    {
      ghost var v := View();
      forall k | k in clients ensures Copies(v, u, k, message)
        == if clients[k].user == u && clients[k].closing.NotClosed? then [Status(message)] else []
      {
        DeliveredToOpen(v, caps, u, k, message);
      }
      if u !in channels {
        return;
      }
      var rest := Listening(View(), u);
      OneListens(v, caps, u);
      while rest != {}
        invariant rest <= {v.unsubscribers[u]} && View() == v && sent.Keys == old(sent).Keys
        invariant forall k :: k in sent ==>
          sent[k] == old(sent)[k] + (if rest == {} then Copies(v, u, k, message) else [])
      {
        var j :| j in rest;
        FanOut(u, message);
        rest := rest - {j};
      }
    }

    /** Sends a status message to every registered open socket of the user, once each. */
    method FanOut(u: UserId, message: string)
      requires Valid()
      modifies this`sent
      ensures Valid() && View() == old(View()) && sent.Keys == old(sent).Keys
      ensures forall k :: k in sent ==> sent[k] == old(sent)[k] + Copies(View(), u, k, message)
    {
      if u !in connectionsByUser {
        return;
      }
      ghost var v := View();
      assert SocketsOf(v, u) == Registered(v, u);
      var all := connectionsByUser[u];
      var rest := all;
      while rest != {}
        invariant rest <= all && View() == v && sent.Keys == old(sent).Keys
        invariant forall k :: k in sent ==>
          sent[k] == old(sent)[k] + (if k in rest then [] else Copies(v, u, k, message))
      {
        var k :| k in rest;
        if clients[k].closing.NotClosed? {
          sent := sent[k := sent[k] + [Status(message)]];
        }
        rest := rest - {k};
      }
    }
  }

  /** The open sockets of a user, and those from an address. */
  function OpenOf(clients: map<SocketId, Socket>, u: UserId): set<SocketId> {
    set k | k in clients && clients[k].user == u && clients[k].closing.NotClosed?
  }

  function OpenFrom(clients: map<SocketId, Socket>, ip: Ip): set<SocketId> {
    set k | k in clients && clients[k].ip == ip && clients[k].closing.NotClosed?
  }

  /** Between handlers the registry's sets and counts are those of the open sockets. */
  lemma RegistryCountsOpen(s: State, caps: Caps, u: UserId, ip: Ip)
    requires Quiet(s, caps)
    ensures SocketsOf(s, u) == OpenOf(s.sockets, u) && CountOf(s, ip) == |OpenFrom(s.sockets, ip)|
  {
    assert SocketsOf(s, u) == Registered(s, u) == OpenOf(s.sockets, u);
    assert CountOf(s, ip) == |Counted(s, ip)| && Counted(s, ip) == OpenFrom(s.sockets, ip);
  }

  predicate Receives(s: State, u: UserId, k: SocketId) {
    k in SocketsOf(s, u) && k in s.sockets && s.sockets[k].closing.NotClosed?
  }

  /** What one fan-out of a message for u sends socket k. */
  function Copies(s: State, u: UserId, k: SocketId, message: string): seq<Sent> {
    if Receives(s, u, k) then [Status(message)] else []
  }

  /** The message listeners of a user. */
  function Listening(s: State, u: UserId): set<SocketId> {
    set j | j in s.listeners && s.listeners[j] == u
  }

  lemma OneListens(s: State, caps: Caps, u: UserId)
    requires Quiet(s, caps) && u in s.channels
    ensures u in s.unsubscribers && Listening(s, u) == {s.unsubscribers[u]}
  {}

  /** With a quiet registry the sockets sent a message are the open ones of its user. */
  lemma DeliveredToOpen(s: State, caps: Caps, u: UserId, k: SocketId, message: string)
    requires Quiet(s, caps) && k in s.sockets
    ensures Copies(s, u, k, message) ==
      if s.sockets[k].user == u && s.sockets[k].closing.NotClosed? then [Status(message)] else []
  {
  }

  function Unregistered(s: State, k: SocketId): State
    requires k in s.sockets
  {
    var u := s.sockets[k].user;
    if u !in s.byUser then s
    else if s.byUser[u] - {k} != {} then s.(byUser := s.byUser[u := s.byUser[u] - {k}])
    else if u in s.unsubscribers then
      s.(byUser := Without(s.byUser, u), listeners := Without(s.listeners, s.unsubscribers[u]),
         channels := s.channels - {u}, unsubscribers := Without(s.unsubscribers, u))
    else s.(byUser := Without(s.byUser, u))
  }

  /** The disconnect handler run alone: unregister, then count down. */
  lemma {:induction false} CloseWholeParts(s: State, k: SocketId)
    requires k in s.sockets && s.sockets[k].closing.NotClosed?
    ensures CloseWhole(s, k) == Uncount(Unregistered(s, k), k)
  {
    var c := Close(s, k);
    var u := s.sockets[k].user;
    var m := MarkedOffline(c, k);
    if u in s.byUser && s.byUser[u] - {k} == {} && u in s.unsubscribers {
      UncountIgnoresClosing(Unregistered(s, k), k, Unsubscribing);
      assert m.(unsubscribers := Without(s.unsubscribers, u), channels := s.channels - {u})
          == Reclosed(Unregistered(s, k), k, Unsubscribing);
    } else {
      assert m == Uncount(Reclosed(Unregistered(s, k), k, MarkingOffline), k);
      UncountIgnoresClosing(Unregistered(s, k), k, MarkingOffline);
    }
  }

  function Reclosed(s: State, k: SocketId, closing: Closing): State
    requires k in s.sockets
  {
    s.(sockets := s.sockets[k := s.sockets[k].(closing := closing)])
  }

  lemma UncountIgnoresClosing(r: State, k: SocketId, closing: Closing)
    requires k in r.sockets
    ensures Uncount(Reclosed(r, k, closing), k) == Uncount(r, k)
  {
    assert Reclosed(r, k, closing).sockets[k := r.sockets[k].(closing := Closed)]
        == r.sockets[k := r.sockets[k].(closing := Closed)];
  }

  /** The registry with one more socket, connected and subscribed. */
  function Welcomed(s: State, k: SocketId, u: UserId, ip: Ip): State {
    State(s.byUser[u := SocketsOf(s, u) + {k}], s.byIp[ip := CountOf(s, ip) + 1],
          if u in s.unsubscribers then s.unsubscribers else s.unsubscribers[u := k],
          if u in s.unsubscribers then s.listeners else s.listeners[k := u],
          if u in s.unsubscribers then s.channels else s.channels + {u},
          s.sockets[k := Socket(u, ip, Connected, NotClosed)])
  }

  /** The connection handler run alone. */
  lemma {:induction false} OpenWholeParts(s: State, caps: Caps, k: SocketId, u: UserId, ip: Ip)
    requires Admits(s, caps, k, u, ip)
    ensures OpenWhole(s, caps, k, u, ip) == Welcomed(s, k, u, ip)
  {
    OpenWholeForm(s, caps, k, u, ip);
  }
}
