/** The two STOMP clients: `WebsocketStompClient`, which writes frames to a
    websocket while it is connected and queues them while it is not, and
    `OfflineStompClient`, which only queues them. The websocket itself is a
    flag saying whether it is connected; everything the clients do to the
    outside world (writes to the socket, requests to open or close it,
    notifications to the delegate) is appended to a log of effects. */
module StompClients {
  import opened StompText
  import opened StompFrame
  import opened StompSpecification
  import opened FrameQueues

  // ---------------------------------------------------------------------------
  // Effects
  // ---------------------------------------------------------------------------

  /** The errors the client hands to its delegate. */
  datatype Failure =
    | UndefinedCommand(token: string)   // thrown by `StompServerCommand(text:)`
    | EncodingFailed                    // thrown by the JSON encoding of a message
    | SocketFailure(reason: string)     // reported by the websocket on disconnect

  /** What the client does to the world, in order. */
  datatype Effect =
    | Wrote(text: string)               // `socket.write(string:)`
    | OpenedSocket                      // `socket.connect()`
    | ClosedSocket                      // `socket.disconnect()`
    | DidConnect                        // `stompClientDidConnect`
    | DidEnqueueFrame(frame: ClientFrame)
    | DidEncounterError(failure: Failure)
    | DidDisconnect(error: Option<Failure>)
    | Aborted                           // a force-unwrap failed: the process stops

  /** `effects` are the writes of the descriptions of `frames`, one each, in order. */
  ghost predicate WritesOf(effects: seq<Effect>, frames: seq<ClientFrame>)
  {
    && |effects| == |frames|
    && forall i :: 0 <= i < |frames| ==> effects[i].Wrote? && IsClientDescription(frames[i], effects[i].text)
  }

  /** The log grew from `t0` to `t1` by writing `frames`, in order. */
  ghost predicate WroteAll(frames: seq<ClientFrame>, t0: seq<Effect>, t1: seq<Effect>)
  {
    exists ws :: WritesOf(ws, frames) && t1 == t0 + ws
  }

  /** The delegate's notices of `frames` being queued, in order. */
  function EnqueueNotices(frames: seq<ClientFrame>): seq<Effect>
  {
    seq(|frames|, i requires 0 <= i < |frames| => DidEnqueueFrame(frames[i]))
  }

  /** What a websocket client's `sendFrame` does with `frames`, one after the
      other, to its queue (`q0` to `q1`) and its log (`t0` to `t1`): written
      while connected, queued with a notice otherwise. */
  ghost predicate Sent(frames: seq<ClientFrame>, connected: bool,
                       q0: seq<ClientFrame>, q1: seq<ClientFrame>, t0: seq<Effect>, t1: seq<Effect>)
  {
    if connected then q1 == q0 && WroteAll(frames, t0, t1)
    else q1 == q0 + frames && t1 == t0 + EnqueueNotices(frames)
  }

  /** Sending nothing changes nothing. */
  lemma SentNothing(connected: bool, q: seq<ClientFrame>, t: seq<Effect>)
    ensures Sent([], connected, q, q, t, t)
  {
    if connected {
      assert WritesOf([], []);
      assert t == t + [];
    } else {
      assert EnqueueNotices([]) == [];
    }
  }

  /** Sending `a` and then `b` is sending `a + b`: frames keep their order. */
  lemma SentConcat(a: seq<ClientFrame>, b: seq<ClientFrame>, connected: bool,
                   q0: seq<ClientFrame>, q1: seq<ClientFrame>, q2: seq<ClientFrame>,
                   t0: seq<Effect>, t1: seq<Effect>, t2: seq<Effect>)
    requires Sent(a, connected, q0, q1, t0, t1)
    requires Sent(b, connected, q1, q2, t1, t2)
    ensures Sent(a + b, connected, q0, q2, t0, t2)
  {
    if connected {
      WroteAllConcat(a, b, t0, t1, t2);
    } else {
      NoticesConcat(a, b);
    }
  }

  lemma WroteAllConcat(a: seq<ClientFrame>, b: seq<ClientFrame>, t0: seq<Effect>, t1: seq<Effect>, t2: seq<Effect>)
    requires WroteAll(a, t0, t1) && WroteAll(b, t1, t2)
    ensures WroteAll(a + b, t0, t2)
  {
    var wa: seq<Effect> :| WritesOf(wa, a) && t1 == t0 + wa;
    var wb: seq<Effect> :| WritesOf(wb, b) && t2 == t1 + wb;
    assert WritesOf(wa + wb, a + b) by {
      WritesOfConcat(wa, a, wb, b);
    }
    assert t2 == t0 + (wa + wb) by {
      AppendAssoc(t0, wa, wb);
    }
  }

  lemma NoticesConcat(a: seq<ClientFrame>, b: seq<ClientFrame>)
    ensures EnqueueNotices(a + b) == EnqueueNotices(a) + EnqueueNotices(b)
  {
  }

  lemma WritesOfConcat(wa: seq<Effect>, a: seq<ClientFrame>, wb: seq<Effect>, b: seq<ClientFrame>)
    requires WritesOf(wa, a) && WritesOf(wb, b)
    ensures WritesOf(wa + wb, a + b)
  {
    forall i | 0 <= i < |a + b|
      ensures (wa + wb)[i].Wrote? && IsClientDescription((a + b)[i], (wa + wb)[i].text)
    {
      WriteAt(wa, a, wb, b, i);
    }
  }

  lemma WriteAt(wa: seq<Effect>, a: seq<ClientFrame>, wb: seq<Effect>, b: seq<ClientFrame>, i: int)
    requires WritesOf(wa, a) && WritesOf(wb, b) && 0 <= i < |a| + |b|
    ensures (wa + wb)[i] == (if i < |a| then wa[i] else wb[i - |a|])
    ensures (a + b)[i] == (if i < |a| then a[i] else b[i - |a|])
  {
  }

  // ---------------------------------------------------------------------------
  // Inbound text
  // ---------------------------------------------------------------------------

  /** What the websocket client makes of a text it receives. */
  datatype Inbound =
    | HeartBeatRequest                  // the first line is empty
    | Undefined(token: string)          // the command is not a server command
    | Crash                             // the parser's force-unwrap fails
    | Frame(frame: ServerFrame)

  /** The classification `websocketDidReceiveMessage` makes: a text whose
      first line is empty is answered with a heart-beat before any parsing,
      so of the parser's two crashes only the one on a `content-length`
      header with an unreadable value can happen. */
  function Classify(text: string): (r: Inbound)
    ensures r.HeartBeatRequest? <==> Split(text, '\n')[0] == ""
    ensures r.Frame? ==> ParseText(text) == Parsed(r.frame)
    ensures r.Undefined? ==> ParseText(text) == UnknownCommand(r.token)
    ensures r.Crash? ==> ParseText(text) == ContentLengthTrap
  {
    if Split(text, '\n')[0] == "" then HeartBeatRequest
    else
      ParseCommandLine(text);
      assert text != "" by {
        if text == "" { SplitNoSeparator(text, '\n'); }
      }
      match ParseText(text)
      case Parsed(f) => Frame(f)
      case UnknownCommand(t) => Undefined(t)
      case _ => Crash
  }

  /** The text of a server frame, written as a frame's description is, reads
      as that frame, each header reread from its printed value. */
  lemma ClassifyServerDescription(f: ServerFrame, s: string)
    requires WireSafe(f.headers, f.body)
    requires IsServerDescription(f, s)
    ensures Classify(s) == Frame(ServerFrame(f.command, Reread(f.headers), f.body))
  {
    var g := ServerFrame(f.command, Reread(f.headers), f.body);
    FirstLineOfDescription(ServerRaw(f.command), f.headers, f.body, s);
    RoundTrip(f, s);
    ClassifyParsed(s, g);
  }

  /** A text whose first line is not empty and that parses is classified as
      the frame it parses as. */
  lemma ClassifyParsed(text: string, g: ServerFrame)
    requires Split(text, '\n')[0] != "" && ParseText(text) == Parsed(g)
    ensures Classify(text) == Frame(g)
  {
  }

  /** The first line of a description is its command. */
  lemma FirstLineOfDescription(command: string, headers: HeaderSet, body: string, s: string)
    requires IsDescription(command, headers, body, s)
    requires command != "" && '\n' !in command
    ensures Split(s, '\n')[0] == command
  {
    DescriptionShape(command, headers, body, s);
    var rest := s[|command| + 1..];
    assert s == command + ['\n'] + rest by {
      ConcatParts(s[..|command| + 1], rest);
      assert s[..|command| + 1] == command + ['\n'];
    }
    SplitAppend(command, '\n', rest);
    SplitNoSeparator(command, '\n');
  }

  /** The text holds a CONNECTED frame. */
  predicate IsConnectedFrame(text: string)
  {
    var r := Classify(text);
    r.Frame? && r.frame.command == Connected
  }

  /** The heart-beat the client writes is itself classified as a heart-beat. */
  lemma HeartBeatIsHeartBeatRequest()
    ensures Classify(HeartBeatText) == HeartBeatRequest
  {
    HeartBeatHasEmptyFirstLine();
  }

  // ---------------------------------------------------------------------------
  // Draining a queue into another client
  // ---------------------------------------------------------------------------

  /** `while !frameQueue.isEmpty { client.sendFrame(frameQueue.dequeue()!) }`
      with a websocket client as the receiver: every queued frame is sent to
      it, oldest first. */
  method DrainToWebsocket(q: FrameQueue, target: WebsocketStompClient)
    requires q.Valid() && target.Valid() && q != target.queue
    modifies q, target, target.queue
    ensures q.Valid() && target.Valid() && q.contents == []
    ensures target.connected == old(target.connected) && target.disconnectReceipt == old(target.disconnectReceipt)
    ensures Sent(old(q.contents), old(target.connected),
                 old(target.queue.contents), target.queue.contents, old(target.trace), target.trace)
  {
    ghost var pending := q.contents;
    ghost var n := 0;
    SentNothing(target.connected, target.queue.contents, target.trace);
    while !q.IsEmpty()
      invariant q.Valid() && target.Valid()
      invariant n <= |pending| && q.contents == pending[n..]
      invariant target.connected == old(target.connected) && target.disconnectReceipt == old(target.disconnectReceipt)
      invariant Sent(pending[..n], target.connected,
                     old(target.queue.contents), target.queue.contents, old(target.trace), target.trace)
      decreases |q.contents|
    {
      ghost var q1, t1 := target.queue.contents, target.trace;
      var f := q.Dequeue();
      target.SendFrame(f.value);
      SentConcat(pending[..n], [f.value], target.connected,
                 old(target.queue.contents), q1, target.queue.contents, old(target.trace), t1, target.trace);
      assert pending[..n + 1] == pending[..n] + [f.value];
      n := n + 1;
    }
    assert pending[..n] == pending;
  }

  /** The same loop with an offline client as the receiver. */
  method DrainToOffline(q: FrameQueue, target: OfflineStompClient)
    requires q.Valid() && target.Valid() && q != target.queue
    modifies q, target.queue
    ensures q.Valid() && target.Valid() && q.contents == []
    ensures target.queue.contents == old(target.queue.contents) + old(q.contents)
  {
    ghost var pending := q.contents;
    ghost var n := 0;
    while !q.IsEmpty()
      invariant q.Valid() && target.Valid()
      invariant n <= |pending| && q.contents == pending[n..]
      invariant target.queue.contents == old(target.queue.contents) + pending[..n]
      decreases |q.contents|
    {
      var f := q.Dequeue();
      target.SendFrame(f.value);
      assert pending[..n + 1] == pending[..n] + [f.value];
      n := n + 1;
    }
    assert pending[..n] == pending;
  }

  // ---------------------------------------------------------------------------
  // The websocket client
  // ---------------------------------------------------------------------------

  class WebsocketStompClient {
    /** `url.host`, sent in the CONNECT frame. */
    const host: string
    /** `socket.isConnected`, kept up to date by the websocket. */
    var connected: bool
    /** The receipt asked for by the last DISCONNECT, initially empty. */
    var disconnectReceipt: string
    /** The frames waiting for the socket to connect. */
    const queue: FrameQueue
    /** Everything the client has done to the socket and the delegate. */
    var trace: seq<Effect>

    ghost predicate Valid()
      reads this, queue
    {
      queue.Valid()
    }

    /** `init(url:)`: a socket not yet connected and an empty queue. */
    constructor (host: string)
      ensures Valid() && fresh(queue)
      ensures this.host == host && !connected && disconnectReceipt == ""
      ensures queue.contents == [] && trace == []
    {
      this.host := host;
      connected := false;
      disconnectReceipt := "";
      queue := new FrameQueue();
      trace := [];
    }

    /** `connect()`: asks the socket to connect. */
    method Connect()
      modifies this
      ensures trace == old(trace) + [OpenedSocket]
      ensures connected == old(connected) && disconnectReceipt == old(disconnectReceipt)
    {
      trace := trace + [OpenedSocket];
    }

    /** `sendFrame(_:)`: writes the frame's description while connected,
        otherwise queues the frame and tells the delegate. */
    method SendFrame(f: ClientFrame)
      requires Valid()
      modifies this, queue
      ensures Valid()
      ensures connected == old(connected) && disconnectReceipt == old(disconnectReceipt)
      ensures Sent([f], connected, old(queue.contents), queue.contents, old(trace), trace)
    {
      if connected {
        var s := DescribeClientFrame(f);
        trace := trace + [Wrote(s)];
        assert WritesOf([Wrote(s)], [f]);
      } else {
        queue.Enqueue(f);
        trace := trace + [DidEnqueueFrame(f)];
        assert EnqueueNotices([f]) == [DidEnqueueFrame(f)];
      }
    }

    /** `sendJSONMessage(destination:data:headers:)`, the data already
        encoded or not encodable: the caller's headers are not passed on. */
    method SendJSONMessage(destination: string, encoded: Option<string>, custom: map<string, string>)
      requires Valid()
      modifies this, queue
      ensures Valid()
      ensures connected == old(connected) && disconnectReceipt == old(disconnectReceipt)
      ensures encoded.None? ==>
        queue.contents == old(queue.contents) && trace == old(trace) + [DidEncounterError(EncodingFailed)]
      ensures encoded.Some? ==>
        Sent([SendJSONFrame(destination, encoded.value, map[])], connected,
             old(queue.contents), queue.contents, old(trace), trace)
    {
      if encoded.None? {
        trace := trace + [DidEncounterError(EncodingFailed)];
      } else {
        SendFrame(SendJSONFrame(destination, encoded.value, map[]));
      }
    }

    /** `subscribe(destination:headers:)`: sends a SUBSCRIBE under a fresh
        subscription id and returns the id. */
    method Subscribe(destination: string, custom: map<string, string>, draw: int) returns (id: string)
      requires Valid() && IsDraw(draw)
      modifies this, queue
      ensures Valid()
      ensures id == GenerateSubscriptionId(draw)
      ensures connected == old(connected) && disconnectReceipt == old(disconnectReceipt)
      ensures Sent([SubscribeFrame(id, destination, custom)], connected,
                   old(queue.contents), queue.contents, old(trace), trace)
    {
      id := GenerateSubscriptionId(draw);
      var headers := InsertCustomHeaders(SubscribeHeaders(id, destination), custom);
      SendFrame(ClientFrame(ClientCommand.Subscribe, headers, ""));
    }

    /** `unsubscribe(subscriptionId:)`. */
    method Unsubscribe(id: string)
      requires Valid()
      modifies this, queue
      ensures Valid()
      ensures connected == old(connected) && disconnectReceipt == old(disconnectReceipt)
      ensures Sent([UnsubscribeFrame(id)], connected, old(queue.contents), queue.contents, old(trace), trace)
    {
      SendFrame(UnsubscribeFrame(id));
    }

    /** `disconnect()`: remembers a fresh receipt and sends a DISCONNECT
        asking for it; the socket is closed when that receipt comes back. */
    method Disconnect(draw: int)
      requires Valid() && IsDraw(draw)
      modifies this, queue
      ensures Valid()
      ensures connected == old(connected) && disconnectReceipt == GenerateReceipt(draw)
      ensures Sent([DisconnectFrame(disconnectReceipt)], connected,
                   old(queue.contents), queue.contents, old(trace), trace)
    {
      disconnectReceipt := GenerateReceipt(draw);
      SendFrame(DisconnectFrame(disconnectReceipt));
    }

    /** `resignToClient(client:)` with a websocket client taking over: every
        queued frame goes to it, oldest first, and this socket is closed. */
    method ResignToWebsocket(target: WebsocketStompClient)
      requires Valid() && target.Valid() && target != this && target.queue != queue
      modifies this, queue, target, target.queue
      ensures Valid() && target.Valid() && queue.contents == []
      ensures trace == old(trace) + [ClosedSocket]
      ensures connected == old(connected) && disconnectReceipt == old(disconnectReceipt)
      ensures target.connected == old(target.connected) && target.disconnectReceipt == old(target.disconnectReceipt)
      ensures Sent(old(queue.contents), old(target.connected),
                   old(target.queue.contents), target.queue.contents, old(target.trace), target.trace)
    {
      DrainToWebsocket(queue, target);
      trace := trace + [ClosedSocket];
    }

    /** `resignToClient(client:)` with an offline client taking over. */
    method ResignToOffline(target: OfflineStompClient)
      requires Valid() && target.Valid() && target.queue != queue
      modifies this, queue, target.queue
      ensures Valid() && target.Valid() && queue.contents == []
      ensures trace == old(trace) + [ClosedSocket]
      ensures connected == old(connected) && disconnectReceipt == old(disconnectReceipt)
      ensures target.queue.contents == old(target.queue.contents) + old(queue.contents)
    {
      DrainToOffline(queue, target);
      trace := trace + [ClosedSocket];
    }

    /** `websocketDidConnect(socket:)`: the socket is now connected, so the
        CONNECT frame is written at once. */
    method SocketDidConnect()
      requires Valid()
      modifies this, queue
      ensures Valid() && connected && disconnectReceipt == old(disconnectReceipt)
      ensures queue.contents == old(queue.contents)
      ensures WroteAll([ConnectFrame(host)], old(trace), trace)
    {
      connected := true;
      SendFrame(ConnectFrame(host));
    }

    /** `websocketDidDisconnect(socket:error:)`: the socket is no longer
        connected and the delegate is told why. */
    method SocketDidDisconnect(error: Option<Failure>)
      modifies this
      ensures !connected && disconnectReceipt == old(disconnectReceipt)
      ensures trace == old(trace) + [DidDisconnect(error)]
    {
      connected := false;
      trace := trace + [DidDisconnect(error)];
    }

    /** The `sendFramesToClient(client: self)` of a CONNECTED frame: every
        queued frame is written, oldest first. Each frame taken goes through
        `sendFrame`, so over a disconnected socket a non-empty queue would be
        refilled as fast as it drains; only an empty one is flushed there. */
    method FlushQueue()
      requires Valid() && (connected || queue.contents == [])
      modifies this, queue
      ensures Valid() && connected == old(connected) && disconnectReceipt == old(disconnectReceipt)
      ensures queue.contents == []
      ensures WroteAll(old(queue.contents), old(trace), trace)
    {
      ghost var pending := queue.contents;
      ghost var n := 0;
      SentNothing(true, [], trace);
      while !queue.IsEmpty()
        invariant Valid() && connected == old(connected) && disconnectReceipt == old(disconnectReceipt)
        invariant connected || pending == []
        invariant n <= |pending| && queue.contents == pending[n..]
        invariant Sent(pending[..n], true, [], [], old(trace), trace)
        decreases |queue.contents|
      {
        ghost var t1 := trace;
        var f := queue.Dequeue();
        SendFrame(f.value);
        SentConcat(pending[..n], [f.value], true, [], [], [], old(trace), t1, trace);
        assert pending[..n + 1] == pending[..n] + [f.value];
        n := n + 1;
      }
      assert pending[..n] == pending;
    }

    /** `websocketDidReceiveMessage(socket:text:)`. A text whose first line is
        empty is answered with a heart-beat. Otherwise it is parsed: an
        unknown command is reported to the delegate; CONNECTED writes every
        queued frame and tells the delegate; MESSAGE is acknowledged under
        its `message-id`; a RECEIPT for the pending DISCONNECT closes the
        socket; ERROR is ignored. A CONNECTED frame over a disconnected
        socket is taken only when nothing is queued. */
    method ReceiveText(text: string)
      requires Valid()
      requires IsConnectedFrame(text) ==> connected || queue.contents == []
      modifies this, queue
      ensures Valid() && connected == old(connected) && disconnectReceipt == old(disconnectReceipt)
      ensures match Classify(text)
        case HeartBeatRequest =>
          queue.contents == old(queue.contents) && trace == old(trace) + [Wrote(HeartBeatText)]
        case Undefined(token) =>
          queue.contents == old(queue.contents) && trace == old(trace) + [DidEncounterError(UndefinedCommand(token))]
        case Crash =>
          queue.contents == old(queue.contents) && trace == old(trace) + [Aborted]
        case Frame(f) =>
          match f.command
          case Connected =>
            queue.contents == [] && |trace| > 0 && trace[|trace| - 1] == DidConnect
            && WroteAll(old(queue.contents), old(trace), trace[..|trace| - 1])
          case Message =>
            Sent([AckFrame(GetHeader(f.headers, "message-id"))], connected,
                 old(queue.contents), queue.contents, old(trace), trace)
          case Receipt =>
            queue.contents == old(queue.contents)
            && trace == old(trace) + (if GetHeader(f.headers, "receipt-id") == disconnectReceipt then [ClosedSocket] else [])
          case Error =>
            queue.contents == old(queue.contents) && trace == old(trace)
    {
      var components := Split(text, '\n');
      if components[0] == "" {
        trace := trace + [Wrote(HeartBeatText)];
        return;
      }
      var parsed := ParseServerFrame(text);
      match parsed {
        case UnknownCommand(token) =>
          trace := trace + [DidEncounterError(UndefinedCommand(token))];
        case EmptyTextTrap =>
          trace := trace + [Aborted];
        case ContentLengthTrap =>
          trace := trace + [Aborted];
        case Parsed(f) =>
          HandleFrame(f);
      }
    }

    /** The `switch frame.command` of `websocketDidReceiveMessage`. */
    method HandleFrame(f: ServerFrame)
      requires Valid()
      requires f.command == Connected ==> connected || queue.contents == []
      modifies this, queue
      ensures Valid() && connected == old(connected) && disconnectReceipt == old(disconnectReceipt)
      ensures match f.command
        case Connected =>
          queue.contents == [] && |trace| > 0 && trace[|trace| - 1] == DidConnect
          && WroteAll(old(queue.contents), old(trace), trace[..|trace| - 1])
        case Message =>
          Sent([AckFrame(GetHeader(f.headers, "message-id"))], connected,
               old(queue.contents), queue.contents, old(trace), trace)
        case Receipt =>
          queue.contents == old(queue.contents)
          && trace == old(trace) + (if GetHeader(f.headers, "receipt-id") == disconnectReceipt then [ClosedSocket] else [])
        case Error =>
          queue.contents == old(queue.contents) && trace == old(trace)
    {
      match f.command {
        case Connected =>
          FlushQueue();
          ghost var flushed := trace;
          trace := trace + [DidConnect];
          assert trace[..|trace| - 1] == flushed;
        case Message =>
          SendFrame(AckFrame(GetHeader(f.headers, "message-id")));
        case Receipt =>
          if GetHeader(f.headers, "receipt-id") == disconnectReceipt {
            trace := trace + [ClosedSocket];
          }
        case Error =>
      }
    }
  }

  // ---------------------------------------------------------------------------
  // The offline client
  // ---------------------------------------------------------------------------

  /** A client that is never connected: every frame waits in its queue until
      another client takes over. */
  class OfflineStompClient {
    const queue: FrameQueue

    ghost predicate Valid()
      reads this, queue
    {
      queue.Valid()
    }

    constructor ()
      ensures Valid() && fresh(queue) && queue.contents == []
    {
      queue := new FrameQueue();
    }

    /** `sendFrame(_:)`: the frame is queued. */
    method SendFrame(f: ClientFrame)
      requires Valid()
      modifies queue
      ensures Valid() && queue.contents == old(queue.contents) + [f]
    {
      queue.Enqueue(f);
    }

    /** `sendJSONMessage(destination:data:headers:)`: a message that cannot be
        encoded is dropped without a word; the caller's headers are not
        passed on. */
    method SendJSONMessage(destination: string, encoded: Option<string>, custom: map<string, string>)
      requires Valid()
      modifies queue
      ensures Valid()
      ensures encoded.None? ==> queue.contents == old(queue.contents)
      ensures encoded.Some? ==> queue.contents == old(queue.contents) + [SendJSONFrame(destination, encoded.value, map[])]
    {
      if encoded.Some? {
        SendFrame(SendJSONFrame(destination, encoded.value, map[]));
      }
    }

    /** `subscribe(destination:headers:)`. */
    method Subscribe(destination: string, custom: map<string, string>, draw: int) returns (id: string)
      requires Valid() && IsDraw(draw)
      modifies queue
      ensures Valid() && id == GenerateSubscriptionId(draw)
      ensures queue.contents == old(queue.contents) + [SubscribeFrame(id, destination, custom)]
    {
      id := GenerateSubscriptionId(draw);
      var headers := InsertCustomHeaders(SubscribeHeaders(id, destination), custom);
      SendFrame(ClientFrame(ClientCommand.Subscribe, headers, ""));
    }

    /** `unsubscribe(subscriptionId:)`. */
    method Unsubscribe(id: string)
      requires Valid()
      modifies queue
      ensures Valid() && queue.contents == old(queue.contents) + [UnsubscribeFrame(id)]
    {
      SendFrame(UnsubscribeFrame(id));
    }

    /** `disconnect()`: the receipt is made up but not remembered. */
    method Disconnect(draw: int)
      requires Valid() && IsDraw(draw)
      modifies queue
      ensures Valid() && queue.contents == old(queue.contents) + [DisconnectFrame(GenerateReceipt(draw))]
    {
      SendFrame(DisconnectFrame(GenerateReceipt(draw)));
    }

    /** `resignToClient(client:)` with a websocket client taking over. */
    method ResignToWebsocket(target: WebsocketStompClient)
      requires Valid() && target.Valid() && target.queue != queue
      modifies queue, target, target.queue
      ensures Valid() && target.Valid() && queue.contents == []
      ensures target.connected == old(target.connected) && target.disconnectReceipt == old(target.disconnectReceipt)
      ensures Sent(old(queue.contents), old(target.connected),
                   old(target.queue.contents), target.queue.contents, old(target.trace), target.trace)
    {
      DrainToWebsocket(queue, target);
    }

    /** `resignToClient(client:)` with another offline client taking over. */
    method ResignToOffline(target: OfflineStompClient)
      requires Valid() && target.Valid() && target.queue != queue
      modifies queue, target.queue
      ensures Valid() && target.Valid() && queue.contents == []
      ensures target.queue.contents == old(target.queue.contents) + old(queue.contents)
    {
      DrainToOffline(queue, target);
    }
  }
}
