/**
 * Properties of sequences of calls on one Spacebrew client: what the server is told
 * after declaring routes and connecting, and how closing and dropping interact with
 * the reconnect poll.
 */
module Scenarios {
  import opened Routes
  import opened Messages
  import opened Client
  import opened Options

  /** Arguments of one addPublish call. */
  datatype PublishDecl = PublishDecl(name: string, kind: string, default: DefaultArg)

  /** Arguments of one addSubscribe call. */
  datatype SubscribeDecl = SubscribeDecl(name: string, kind: string)

  function PublishRoutes(ds: seq<PublishDecl>): seq<Route> {
    seq(|ds|, i requires 0 <= i < |ds| => Route(ds[i].name, ds[i].kind, DefaultString(ds[i].default)))
  }

  function SubscribeRoutes(ds: seq<SubscribeDecl>): seq<Route> {
    seq(|ds|, i requires 0 <= i < |ds| => Route(ds[i].name, ds[i].kind, ""))
  }

  lemma PublishRoutesStep(ds: seq<PublishDecl>, i: nat)
    requires i < |ds|
    ensures PublishRoutes(ds[..i + 1]) == PublishRoutes(ds[..i]) + [Route(ds[i].name, ds[i].kind, DefaultString(ds[i].default))]
  {
  }

  lemma SubscribeRoutesStep(ds: seq<SubscribeDecl>, i: nat)
    requires i < |ds|
    ensures SubscribeRoutes(ds[..i + 1]) == SubscribeRoutes(ds[..i]) + [Route(ds[i].name, ds[i].kind, "")]
  {
  }

  /**
   * A fresh client that declares routes, connects and is then told the socket is
   * open has created one socket and sent one config, which lists exactly the
   * declared routes, in declaration order, publish entries with their defaults.
   */
  method DeclareConnectOpen(pubs: seq<PublishDecl>, subs: seq<SubscribeDecl>,
                            host: string, port: nat, appName: string, appDescription: Option<string>)
    returns (sb: Spacebrew)
    ensures sb.Valid() && sb.Connected()
    ensures sb.outbox == [OpenSocket(Url(host, port)),
                          ConfigFrame(Config(appName, appDescription,
                                             SubscribeEntries(SubscribeRoutes(subs)),
                                             PublishEntries(PublishRoutes(pubs))))]
    ensures sb.events == [SbOpen]
  {
    sb := new Spacebrew();
    var i := 0;
    while i < |pubs|
      invariant 0 <= i <= |pubs|
      invariant sb.Valid() && !sb.connectionEstablished
      invariant sb.publishes == PublishRoutes(pubs[..i]) && sb.subscribes == []
      invariant sb.outbox == [] && sb.events == []
    {
      sb.AddPublish(pubs[i].name, pubs[i].kind, pubs[i].default);
      PublishRoutesStep(pubs, i);
      i := i + 1;
    }
    assert pubs[..i] == pubs;
    var j := 0;
    while j < |subs|
      invariant 0 <= j <= |subs|
      invariant sb.Valid() && !sb.connectionEstablished
      invariant sb.publishes == PublishRoutes(pubs) && sb.subscribes == SubscribeRoutes(subs[..j])
      invariant sb.outbox == [] && sb.events == []
    {
      sb.AddSubscribe(subs[j].name, subs[j].kind);
      SubscribeRoutesStep(subs, j);
      j := j + 1;
    }
    assert subs[..j] == subs;
    sb.Connect(host, port, appName, appDescription);
    sb.OnOpen();
  }

  /**
   * A subscribe route declared after connect but before the socket opens is not in
   * the config sent on open: that config is the one built by connect.
   */
  method DeclareBetweenConnectAndOpen(sb: Spacebrew, host: string, port: nat, appName: string,
                                      appDescription: Option<string>, routeName: string, kind: string)
    requires sb.Valid() && !sb.connectionEstablished
    modifies sb
    ensures sb.subscribes == old(sb.subscribes) + [Route(routeName, kind, "")]
    ensures sb.outbox == old(sb.outbox) +
      [OpenSocket(Url(host, port)),
       ConfigFrame(Config(appName, appDescription,
                          SubscribeEntries(old(sb.subscribes)), PublishEntries(old(sb.publishes))))]
  {
    sb.Connect(host, port, appName, appDescription);
    sb.AddSubscribe(routeName, kind);
    sb.OnOpen();
  }

  /** After close, no tick reconnects, however late it comes. */
  method CloseThenTick(sb: Spacebrew, now: int)
    requires sb.Valid()
    modifies sb
    ensures !sb.connectionRequested
    ensures sb.reconnectAttempt == old(sb.reconnectAttempt)
    ensures sb.outbox == old(sb.outbox) + (if old(sb.connectionEstablished) then [CloseSocket] else [])
  {
    sb.Close();
    sb.Pre(now);
  }

  /**
   * Closing twice leaves the same flags as closing once; while the socket is open
   * each call asks the socket to close.
   */
  method CloseTwice(sb: Spacebrew)
    requires sb.Valid()
    modifies sb
    ensures !sb.connectionRequested && sb.connectionEstablished == old(sb.connectionEstablished)
    ensures sb.outbox == old(sb.outbox) + (if old(sb.connectionEstablished) then [CloseSocket, CloseSocket] else [])
  {
    sb.Close();
    sb.Close();
  }

  /**
   * After the socket drops while a connection is wanted, a tick exactly the interval
   * after the last attempt does nothing, a later one opens one new socket, and a tick
   * one interval after that attempt does nothing again.
   */
  method DropThenTicks(sb: Spacebrew, late: int)
    requires sb.Valid() && sb.connectionRequested && sb.connectionEstablished
    requires late - sb.reconnectAttempt > ReconnectInterval
    modifies sb
    ensures !sb.connectionEstablished && sb.connectionRequested
    ensures sb.events == old(sb.events) + [SbClose]
    ensures sb.outbox == old(sb.outbox) + [OpenSocket(Url(old(sb.hostname), old(sb.port)))]
    ensures sb.reconnectAttempt == late
  {
    sb.OnClose();
    sb.Pre(sb.reconnectAttempt + ReconnectInterval);
    sb.Pre(late);
    sb.Pre(late + ReconnectInterval);
  }

  /**
   * The reconnect clock runs from the last attempt, which connect does not reset: a
   * tick more than the interval after that attempt, right after an explicit connect
   * and before the socket opens, creates a second socket.
   */
  method ConnectThenTick(sb: Spacebrew, host: string, port: nat, appName: string,
                         appDescription: Option<string>, now: int)
    requires sb.Valid() && !sb.connectionEstablished
    requires now - sb.reconnectAttempt > ReconnectInterval
    modifies sb
    ensures sb.reconnectAttempt == now
    ensures sb.outbox == old(sb.outbox) + [OpenSocket(Url(host, port)), OpenSocket(Url(host, port))]
  {
    sb.Connect(host, port, appName, appDescription);
    sb.Pre(now);
  }
}
