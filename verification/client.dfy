/**
 * The Spacebrew client connection manager. The WebSocket is an outbox: the list of
 * calls the client makes on its transport, in order. The document's event bus is an
 * event log: the list of events the client dispatches, in order. The transport's
 * notifications (open, close, message) are the methods OnOpen, OnClose and OnMessage,
 * and the p5 frame clock is the `now` argument of Pre.
 */
module Client {
  import Decimal
  import opened Routes
  import opened Messages
  import opened Options

  /** Milliseconds between two reconnect attempts. */
  const ReconnectInterval: int := 5000

  /** What the client asks of its WebSocket. */
  datatype Frame =
    | OpenSocket(url: string)       // new WebSocket(url)
    | ConfigFrame(config: Config)   // send(JSON.stringify({config}))
    | DataFrame(message: DataMessage) // send(JSON.stringify({message}))
    | CloseSocket                   // close()

  /** The WebSocket address of a Spacebrew server. */
  function Url(host: string, port: nat): string {
    "ws://" + host + ":" + Decimal.NatToString(port)
  }

  /**
   * Whether the event log says the connection is open: the last open or close
   * event in it is an open.
   */
  function OpenSinceLastClose(events: seq<Event>): bool {
    if events == [] then false
    else if events[|events| - 1].SbOpen? then true
    else if events[|events| - 1].SbClose? then false
    else OpenSinceLastClose(events[..|events| - 1])
  }

  lemma OpenSinceLastCloseAppend(events: seq<Event>, e: Event)
    ensures e.IsMessage() ==> OpenSinceLastClose(events + [e]) == OpenSinceLastClose(events)
    ensures e.SbOpen? ==> OpenSinceLastClose(events + [e])
    ensures e.SbClose? ==> !OpenSinceLastClose(events + [e])
  {
  }

  class Spacebrew {
    // identity announced to the server
    var name: string
    var description: Option<string>   // None: undefined, as when connect is given no description
    // last server address asked for
    var hostname: string
    var port: nat
    // state
    var connectionEstablished: bool
    var connectionRequested: bool
    // auto-reconnect
    var reconnectAttempt: int
    // the config object last built (tConfig.config); None while it is still {}
    var tConfig: Option<Config>
    // route tables
    var publishes: seq<Route>
    var subscribes: seq<Route>
    // whether a WebSocket has been created (wsClient != null)
    var hasSocket: bool
    // the transport and the document, made observable
    var outbox: seq<Frame>
    var events: seq<Event>

    ghost predicate Valid()
      reads this
    {
      && (connectionEstablished ==> hasSocket)
      && (hasSocket ==> tConfig.Some?)
      && (tConfig.Some? ==> SnapshotOfPrefix(tConfig.value))
      && NoDefaults(subscribes)
      && connectionEstablished == OpenSinceLastClose(events)
    }

    /**
     * A cached config carries the current identity and lists a prefix of each route
     * table: it never names a route that was not declared, and keeps their order.
     */
    ghost predicate SnapshotOfPrefix(c: Config)
      reads this
    {
      && c.name == name && c.description == description
      && |c.publish| <= |publishes| && c.publish == PublishEntries(publishes[..|c.publish|])
      && |c.subscribe| <= |subscribes| && c.subscribe == SubscribeEntries(subscribes[..|c.subscribe|])
    }

    /** The config updatePubSub builds from the current state. */
    function CurrentConfig(): Config
      reads this
    {
      Config(name, description, SubscribeEntries(subscribes), PublishEntries(publishes))
    }

    /** pre()'s test: a connection was asked for, is not open, and the interval has passed. */
    predicate ReconnectDue(now: int)
      reads this
    {
      connectionRequested && !connectionEstablished && now - reconnectAttempt > ReconnectInterval
    }

    constructor ()
      ensures Valid()
      ensures name == "" && description == Some("")
      ensures hostname == "sandbox.spacebrew.cc" && port == 9000
      ensures !connectionEstablished && !connectionRequested
      ensures reconnectAttempt == 0
      ensures tConfig == None && !hasSocket
      ensures publishes == [] && subscribes == []
      ensures outbox == [] && events == []
    {
      name, description := "", Some("");
      hostname, port := "sandbox.spacebrew.cc", 9000;
      connectionEstablished, connectionRequested := false, false;
      reconnectAttempt := 0;
      tConfig := None;
      publishes, subscribes := [], [];
      hasSocket := false;
      outbox, events := [], [];
    }

    /** Declares a publish route; re-announces all routes when connected. */
    method AddPublish(routeName: string, kind: string, default: DefaultArg)
      requires Valid()
      modifies this`publishes, this`tConfig, this`outbox
      ensures Valid()
      ensures publishes == old(publishes) + [Route(routeName, kind, DefaultString(default))]
      ensures connectionEstablished ==> tConfig == Some(CurrentConfig())
      ensures connectionEstablished ==> outbox == old(outbox) + [ConfigFrame(CurrentConfig())]
      ensures !connectionEstablished ==> tConfig == old(tConfig) && outbox == old(outbox)
    {
      var m := Route(routeName, kind, DefaultString(default));
      publishes := publishes + [m];
      if tConfig.Some? {
        assert publishes[..|tConfig.value.publish|] == old(publishes)[..|tConfig.value.publish|];
      }
      if connectionEstablished {
        UpdatePubSub();
      }
    }

    /** Declares a subscribe route; re-announces all routes when connected. */
    method AddSubscribe(routeName: string, kind: string)
      requires Valid()
      modifies this`subscribes, this`tConfig, this`outbox
      ensures Valid()
      ensures subscribes == old(subscribes) + [Route(routeName, kind, "")]
      ensures connectionEstablished ==> tConfig == Some(CurrentConfig())
      ensures connectionEstablished ==> outbox == old(outbox) + [ConfigFrame(CurrentConfig())]
      ensures !connectionEstablished ==> tConfig == old(tConfig) && outbox == old(outbox)
    {
      var m := Route(routeName, kind, "");
      subscribes := subscribes + [m];
      if tConfig.Some? {
        assert subscribes[..|tConfig.value.subscribe|] == old(subscribes)[..|tConfig.value.subscribe|];
      }
      if connectionEstablished {
        UpdatePubSub();
      }
    }

    /**
     * Records the identity and address, asks for a connection, creates a new
     * WebSocket and rebuilds the config (sent only if a connection is already open).
     */
    method Connect(host: string, serverPort: nat, appName: string, appDescription: Option<string>)
      requires Valid()
      modifies this`name, this`description, this`hostname, this`port
      modifies this`connectionRequested, this`hasSocket, this`tConfig, this`outbox
      ensures Valid()
      ensures name == appName && description == appDescription
      ensures hostname == host && port == serverPort
      ensures connectionRequested && hasSocket
      ensures tConfig == Some(CurrentConfig())
      ensures outbox == old(outbox) + [OpenSocket(Url(host, serverPort))]
                        + (if connectionEstablished then [ConfigFrame(CurrentConfig())] else [])
    {
      name := appName;
      description := appDescription;
      hostname := host;
      port := serverPort;
      connectionRequested := true;
      outbox := outbox + [OpenSocket(Url(hostname, port))];
      hasSocket := true;
      UpdatePubSub();
    }

    /** Closes the WebSocket if it is open, and withdraws the request to be connected. */
    method Close()
      requires Valid()
      modifies this`connectionRequested, this`outbox
      ensures Valid()
      ensures !connectionRequested
      ensures outbox == old(outbox) + (if connectionEstablished then [CloseSocket] else [])
    {
      if connectionEstablished {
        outbox := outbox + [CloseSocket];
      }
      connectionRequested := false;
    }

    /**
     * The per-frame poll: reconnects with the stored address and identity when a
     * connection is wanted, not open, and the last attempt is over 5000 ms old.
     */
    method Pre(now: int)
      requires Valid()
      modifies this`name, this`description, this`hostname, this`port, this`connectionRequested
      modifies this`hasSocket, this`tConfig, this`outbox, this`reconnectAttempt
      ensures Valid()
      ensures name == old(name) && description == old(description)
      ensures hostname == old(hostname) && port == old(port)
      ensures connectionRequested == old(connectionRequested)
      ensures old(ReconnectDue(now)) ==>
        && reconnectAttempt == now
        && hasSocket
        && tConfig == Some(CurrentConfig())
        && outbox == old(outbox) + [OpenSocket(Url(hostname, port))]
      ensures !old(ReconnectDue(now)) ==>
        && reconnectAttempt == old(reconnectAttempt)
        && hasSocket == old(hasSocket)
        && tConfig == old(tConfig)
        && outbox == old(outbox)
    {
      if connectionRequested && !connectionEstablished {
        if now - reconnectAttempt > ReconnectInterval {
          Connect(hostname, port, name, description);
          reconnectAttempt := now;
        }
      }
    }

    /** Rebuilds the config from the route tables and sends it if connected. */
    method UpdatePubSub()
      requires connectionEstablished ==> hasSocket
      modifies this`tConfig, this`outbox
      ensures tConfig == Some(CurrentConfig()) && SnapshotOfPrefix(tConfig.value)
      ensures outbox == old(outbox) + (if connectionEstablished then [ConfigFrame(CurrentConfig())] else [])
    {
      assert publishes[..|publishes|] == publishes && subscribes[..|subscribes|] == subscribes;
      var publishers := CollectPublishers(publishes);
      var subscribers := CollectSubscribers(subscribes);
      tConfig := Some(Config(name, description, subscribers, publishers));
      if connectionEstablished {
        outbox := outbox + [ConfigFrame(tConfig.value)];
      }
    }

    /** Sends a data message if connected; otherwise drops it (with only a warning). */
    method Send(messageName: string, kind: string, value: string)
      requires Valid()
      modifies this`outbox
      ensures Valid()
      ensures connectionEstablished ==>
        outbox == old(outbox) + [DataFrame(DataMessage(name, messageName, kind, value))]
      ensures !connectionEstablished ==> outbox == old(outbox)
    {
      var m := DataMessage(name, messageName, kind, value);
      if connectionEstablished {
        outbox := outbox + [DataFrame(m)];
      }
    }

    /** Whether the WebSocket is connected: the log's last open/close event is an open. */
    function Connected(): (r: bool)
      requires Valid()
      reads this
      ensures r <==> OpenSinceLastClose(events)
    {
      connectionEstablished
    }

    /** WebSocket open: marks the connection open, re-sends the cached config, fires onSbOpen. */
    method OnOpen()
      requires Valid() && hasSocket
      modifies this`connectionEstablished, this`outbox, this`events
      ensures Valid()
      ensures connectionEstablished
      ensures outbox == old(outbox) + [ConfigFrame(tConfig.value)]
      ensures events == old(events) + [SbOpen]
    {
      connectionEstablished := true;
      outbox := outbox + [ConfigFrame(tConfig.value)];
      OpenSinceLastCloseAppend(events, SbOpen);
      events := events + [SbOpen];
    }

    /** WebSocket close: fires onSbClose, then marks the connection closed. */
    method OnClose()
      requires Valid()
      modifies this`connectionEstablished, this`events
      ensures Valid()
      ensures !connectionEstablished
      ensures events == old(events) + [SbClose]
    {
      OpenSinceLastCloseAppend(events, SbClose);
      events := events + [SbClose];
      connectionEstablished := false;
    }

    /** WebSocket message: fires exactly one event, chosen by the message's type. */
    method OnMessage(m: DataMessage)
      requires Valid()
      modifies this`events
      ensures Valid()
      ensures events == old(events) + [Classify(m)]
    {
      var e := Classify(m);
      OpenSinceLastCloseAppend(events, e);
      events := events + [e];
    }
  }
}
