/** STOMP frames as the client sees them: the closed command sets, the typed
    headers with their key-only identity, the wire form a frame is described
    by, and the line-splitting parser for frames the server sends. */
module StompFrame {
  import opened StompText

  // ---------------------------------------------------------------------------
  // Commands
  // ---------------------------------------------------------------------------

  datatype ClientCommand =
    | Send | Subscribe | Unsubscribe | Begin | Commit | Abort
    | Ack | Nack | Disconnect | Connect | Stomp

  datatype ServerCommand = Connected | Message | Receipt | Error

  /** The raw value: a word of capital letters, so it holds no colon, newline
      or NUL and makes a line of its own. */
  function ClientRaw(c: ClientCommand): (r: string)
    ensures |r| >= 3 && forall i :: 0 <= i < |r| ==> 'A' <= r[i] <= 'Z'
  {
    match c
    case Send => "SEND"
    case Subscribe => "SUBSCRIBE"
    case Unsubscribe => "UNSUBSCRIBE"
    case Begin => "BEGIN"
    case Commit => "COMMIT"
    case Abort => "ABORT"
    case Ack => "ACK"
    case Nack => "NACK"
    case Disconnect => "DISCONNECT"
    case Connect => "CONNECT"
    case Stomp => "STOMP"
  }

  /** The raw value: a word of capital letters, so it holds no colon, newline
      or NUL and makes a line of its own. */
  function ServerRaw(c: ServerCommand): (r: string)
    ensures |r| >= 3 && forall i :: 0 <= i < |r| ==> 'A' <= r[i] <= 'Z'
  {
    match c
    case Connected => "CONNECTED"
    case Message => "MESSAGE"
    case Receipt => "RECEIPT"
    case Error => "ERROR"
  }

  /** `StompClientCommand(text:)`: `None` is the "Sent command is undefined"
      error it throws. */
  function ParseClientCommand(text: string): (r: Option<ClientCommand>)
    ensures r.Some? ==> ClientRaw(r.value) == text
    ensures r.None? ==> forall c :: ClientRaw(c) != text
  {
    if text == "SEND" then Some(Send)
    else if text == "SUBSCRIBE" then Some(Subscribe)
    else if text == "UNSUBSCRIBE" then Some(Unsubscribe)
    else if text == "BEGIN" then Some(Begin)
    else if text == "COMMIT" then Some(Commit)
    else if text == "ABORT" then Some(Abort)
    else if text == "ACK" then Some(Ack)
    else if text == "NACK" then Some(Nack)
    else if text == "DISCONNECT" then Some(Disconnect)
    else if text == "CONNECT" then Some(Connect)
    else if text == "STOMP" then Some(Stomp)
    else None
  }

  /** `StompServerCommand(text:)`: `None` is the "Received command is
      undefined" error it throws. */
  function ParseServerCommand(text: string): (r: Option<ServerCommand>)
    ensures r.Some? ==> ServerRaw(r.value) == text
    ensures r.None? ==> forall c :: ServerRaw(c) != text
  {
    if text == "CONNECTED" then Some(Connected)
    else if text == "MESSAGE" then Some(Message)
    else if text == "RECEIPT" then Some(ServerCommand.Receipt)
    else if text == "ERROR" then Some(Error)
    else None
  }

  /** Each command token is read back as the command it names. */
  lemma CommandTokensRoundTrip(c: ClientCommand, d: ServerCommand)
    ensures ParseClientCommand(ClientRaw(c)) == Some(c)
    ensures ParseServerCommand(ServerRaw(d)) == Some(d)
  {
  }

  // ---------------------------------------------------------------------------
  // Headers
  // ---------------------------------------------------------------------------

  datatype Header =
    | ContentLength(length: int)
    | ContentType(mediaType: string)
    | Receipt(receipt: string)
    | AcceptVersion(version: string)
    | Host(host: string)
    | Login(login: string)
    | Passcode(passcode: string)
    | HeartBeat(beat: string)
    | Version(version: string)
    | Session(session: string)
    | Server(server: string)
    | Destination(destination: string)
    | Transaction(transaction: string)
    | SubscriptionId(id: string)
    | AckMode(ack: string)
    | MessageId(id: string)
    | Subscription(id: string)
    | ReceiptId(id: string)
    | Custom(customKey: string, customValue: string)
  {
    /** The header's name; a header set tells its members apart by this alone. */
    function Key(): string
    {
      match this
      case ContentLength(_) => "content-length"
      case ContentType(_) => "content-type"
      case Receipt(_) => "receipt"
      case AcceptVersion(_) => "accept-version"
      case Host(_) => "host"
      case Login(_) => "login"
      case Passcode(_) => "passcode"
      case HeartBeat(_) => "heart-beat"
      case Version(_) => "version"
      case Session(_) => "session"
      case Server(_) => "server"
      case Destination(_) => "destination"
      case Transaction(_) => "transaction"
      case SubscriptionId(_) => "id"
      case AckMode(_) => "ack"
      case MessageId(_) => "message-id"
      case Subscription(_) => "subscription"
      case ReceiptId(_) => "receipt-id"
      case Custom(k, _) => k
    }

    /** The header's value as text; a content length is printed in decimal. */
    function Value(): string
    {
      match this
      case ContentLength(n) => FormatInt(n)
      case ContentType(v) => v
      case Receipt(v) => v
      case AcceptVersion(v) => v
      case Host(v) => v
      case Login(v) => v
      case Passcode(v) => v
      case HeartBeat(v) => v
      case Version(v) => v
      case Session(v) => v
      case Server(v) => v
      case Destination(v) => v
      case Transaction(v) => v
      case SubscriptionId(v) => v
      case AckMode(v) => v
      case MessageId(v) => v
      case Subscription(v) => v
      case ReceiptId(v) => v
      case Custom(_, v) => v
    }
  }

  /** The names that have a typed case of their own. */
  const ReservedKeys: set<string> := {
    "content-length", "content-type", "receipt", "accept-version", "host",
    "login", "passcode", "heart-beat", "version", "session", "server",
    "destination", "transaction", "id", "ack", "message-id", "subscription",
    "receipt-id"
  }

  /** `key`: a typed header goes by its own reserved name, a custom header by
      the name it carries. */
  lemma HeaderKeys(h: Header)
    ensures !h.Custom? ==> h.Key() in ReservedKeys
    ensures h.Custom? ==> h.Key() == h.customKey
  {
  }

  /** `value`: a content length is printed so that `Int(_:)` reads it back,
      and a custom header prints the value it carries. */
  lemma HeaderValues(h: Header)
    ensures h.ContentLength? && InInt64(h.length) ==> ParseInt(h.Value()) == Some(h.length)
    ensures h.Custom? ==> h.Value() == h.customValue
  {
    if h.ContentLength? && InInt64(h.length) {
      ParseFormatInt(h.length);
    }
  }

  /** `StompHeader(key:value:)`. `None` is the failed force-unwrap of
      `Int(value)!` on a content length that is not a 64-bit integer, which
      stops the process. */
  function HeaderOf(key: string, value: string): (r: Option<Header>)
    ensures r.Some? ==> r.value.Key() == key
    ensures key != "content-length" ==> r.Some? && r.value.Value() == value
    ensures key == "content-length" ==> (r.Some? <==> ParseInt(value).Some?)
    ensures key == "content-length" && r.Some? ==> r.value == ContentLength(ParseInt(value).value)
    ensures r.Some? && r.value.Custom? <==> key !in ReservedKeys
  {
    if key == "content-length" then
      match ParseInt(value)
      case None => None
      case Some(n) => Some(ContentLength(n))
    else if key == "content-type" then Some(ContentType(value))
    else if key == "receipt" then Some(Header.Receipt(value))
    else if key == "accept-version" then Some(AcceptVersion(value))
    else if key == "host" then Some(Host(value))
    else if key == "login" then Some(Login(value))
    else if key == "passcode" then Some(Passcode(value))
    else if key == "heart-beat" then Some(HeartBeat(value))
    else if key == "version" then Some(Version(value))
    else if key == "session" then Some(Session(value))
    else if key == "server" then Some(Server(value))
    else if key == "destination" then Some(Destination(value))
    else if key == "transaction" then Some(Transaction(value))
    else if key == "id" then Some(SubscriptionId(value))
    else if key == "ack" then Some(AckMode(value))
    else if key == "message-id" then Some(MessageId(value))
    else if key == "subscription" then Some(Subscription(value))
    else if key == "receipt-id" then Some(ReceiptId(value))
    else Some(Custom(key, value))
  }

  /** A header is rebuilt from its own name and printed value exactly when it
      is in the form `StompHeader(key:value:)` produces: a content length
      that fits in an `Int`, and no custom header under a reserved name. */
  lemma HeaderOfKeyValue(h: Header)
    ensures HeaderOf(h.Key(), h.Value()) == Some(h)
        <==> (h.ContentLength? ==> InInt64(h.length)) && (h.Custom? ==> h.customKey !in ReservedKeys)
  {
    if h.ContentLength? {
      if InInt64(h.length) {
        ParseFormatInt(h.length);
      } else {
        var r := ParseInt(FormatInt(h.length));
        assert r.Some? ==> InInt64(r.value);
      }
    }
  }

  /** A set of headers under Swift's key-only equality and hashing: at most
      one header per name, found under its name. */
  type HeaderSet = m: map<string, Header> | forall k :: k in m ==> m[k].Key() == k
    witness map[]

  /** The headers of a set, as the members Swift's `Set` holds. */
  ghost function Members(headers: HeaderSet): set<Header>
  {
    headers.Values
  }

  /** Two members of a header set with the same name are the same member. */
  lemma MembersUniqueByKey(headers: HeaderSet, a: Header, b: Header)
    requires a in Members(headers) && b in Members(headers)
    ensures a.Key() == b.Key() <==> a == b
  {
  }

  /** `Set.insert`: when a header with the same name is already a member the
      set is left as it is, so the first header under a name wins. */
  function Insert(headers: HeaderSet, h: Header): (r: HeaderSet)
    ensures r.Keys == headers.Keys + {h.Key()}
    ensures forall k :: k in headers ==> r[k] == headers[k]
    ensures h.Key() !in headers ==> r[h.Key()] == h
  {
    if h.Key() in headers then headers else headers[h.Key() := h]
  }

  /** `frame.getHeader(k)`: the value of the header named k, or the empty
      string when the frame has none. */
  function GetHeader(headers: HeaderSet, key: string): (v: string)
    ensures key in headers ==> v == headers[key].Value()
    ensures key !in headers ==> v == ""
  {
    if key in headers then headers[key].Value() else ""
  }

  // ---------------------------------------------------------------------------
  // Frames and their wire form
  // ---------------------------------------------------------------------------

  datatype ClientFrame = ClientFrame(command: ClientCommand, headers: HeaderSet, body: string)

  datatype ServerFrame = ServerFrame(command: ServerCommand, headers: HeaderSet, body: string)

  /** An order in which a loop over a header set may visit its names: each
      name once. Swift leaves the order of a `Set` unspecified. */
  ghost predicate Enumerates(order: seq<string>, headers: HeaderSet)
  {
    && (forall i, j :: 0 <= i < j < |order| ==> order[i] != order[j])
    && (forall k :: k in order <==> k in headers)
  }

  function HeaderLine(h: Header): string
  {
    h.Key() + ":" + h.Value()
  }

  function HeaderLines(headers: HeaderSet, order: seq<string>): (ls: seq<string>)
    requires forall k :: k in order ==> k in headers
  {
    seq(|order|, i requires 0 <= i < |order| => HeaderLine(headers[order[i]]))
  }

  /** The wire form of a frame whose headers are visited in the given order:
      the command, one `key:value` line per header, an empty line, the body
      and a NUL. */
  function Encode(command: string, headers: HeaderSet, order: seq<string>, body: string): string
    requires forall k :: k in order ==> k in headers
  {
    command + "\n" + Lines(HeaderLines(headers, order)) + ("\n" + body + "\0")
  }

  /** s is a `description` of the frame: its wire form for some order of its
      headers. */
  ghost predicate IsDescription(command: string, headers: HeaderSet, body: string, s: string)
  {
    exists order :: Enumerates(order, headers) && s == Encode(command, headers, order, body)
  }

  ghost predicate IsClientDescription(f: ClientFrame, s: string)
  {
    IsDescription(ClientRaw(f.command), f.headers, f.body, s)
  }

  ghost predicate IsServerDescription(f: ServerFrame, s: string)
  {
    IsDescription(ServerRaw(f.command), f.headers, f.body, s)
  }

  /** The `description` loop: start with the command line, append a line per
      header in the order the set yields them, then the empty line, the body
      and the NUL. */
  method Describe(command: string, headers: HeaderSet, body: string) returns (s: string)
    ensures IsDescription(command, headers, body, s)
  {
    s := command + "\n";
    var remaining := headers.Keys;
    ghost var order: seq<string> := [];
    while remaining != {}
      invariant remaining <= headers.Keys
      invariant forall k :: k in order ==> k in headers && k !in remaining
      invariant forall i, j :: 0 <= i < j < |order| ==> order[i] != order[j]
      invariant forall k :: k in headers ==> (k in order || k in remaining)
      invariant s == command + "\n" + Lines(HeaderLines(headers, order))
      decreases remaining
    {
      var k :| k in remaining;
      var header := headers[k];
      DescribeStep(command + "\n", headers, order, k);
      s := s + (header.Key() + ":" + header.Value() + "\n");
      order := order + [k];
      remaining := remaining - {k};
    }
    s := s + ("\n" + body + "\0");
    assert Enumerates(order, headers);
  }

  /** One more header line written. */
  lemma DescribeStep(prefix: string, headers: HeaderSet, order: seq<string>, k: string)
    requires k in headers
    requires forall k :: k in order ==> k in headers
    ensures prefix + Lines(HeaderLines(headers, order)) + (HeaderLine(headers[k]) + "\n")
         == prefix + Lines(HeaderLines(headers, order + [k]))
  {
    assert (order + [k])[..|order|] == order;
    HeaderLinesSnoc(headers, order + [k]);
    LinesSnoc(HeaderLines(headers, order), HeaderLine(headers[k]));
  }

  lemma LinesSnoc(ls: seq<string>, l: string)
    ensures Lines(ls + [l]) == Lines(ls) + (l + "\n")
  {
    assert (ls + [l])[..|ls|] == ls;
  }

  /** `StompClientFrame.description`. */
  method DescribeClientFrame(f: ClientFrame) returns (s: string)
    ensures IsClientDescription(f, s)
  {
    s := Describe(ClientRaw(f.command), f.headers, f.body);
  }

  /** `StompServerFrame.description`. */
  method DescribeServerFrame(f: ServerFrame) returns (s: string)
    ensures IsServerDescription(f, s)
  {
    s := Describe(ServerRaw(f.command), f.headers, f.body);
  }

  /** Every description starts with the command line and ends with the empty
      line, the body and the NUL; between them there is one line per header. */
  lemma DescriptionShape(command: string, headers: HeaderSet, body: string, s: string)
    requires IsDescription(command, headers, body, s)
    ensures |s| >= |command| + |body| + 3
    ensures s[..|command| + 1] == command + "\n"
    ensures s[|s| - |body| - 2..] == "\n" + body + "\0"
  {
    var order :| Enumerates(order, headers) && s == Encode(command, headers, order, body);
    var pre, suf := command + "\n", "\n" + body + "\0";
    var mid := Lines(HeaderLines(headers, order));
    assert s == (pre + mid) + suf;
    ConcatParts(pre + mid, suf);
    assert (pre + mid)[..|pre|] == pre by { ConcatParts(pre, mid); }
  }

  /** A frame's wire form falls apart at its newlines into the command, one
      line per header, the empty line, and the body with its NUL. */
  lemma EncodeSplit(command: string, headers: HeaderSet, order: seq<string>, body: string)
    requires forall k :: k in order ==> k in headers
    requires '\n' !in command && '\n' !in body
    requires forall i :: 0 <= i < |order| ==> '\n' !in HeaderLine(headers[order[i]])
    ensures Split(Encode(command, headers, order, body), '\n')
         == [command] + HeaderLines(headers, order) + ["", body + "\0"]
  {
    var lines := HeaderLines(headers, order);
    var pieces := [command] + lines + ["", body + "\0"];
    assert pieces == ([command] + lines) + ["", body + "\0"];
    JoinAfterLines([command] + lines, ["", body + "\0"]);
    assert Lines([command] + lines) == command + "\n" + Lines(lines) by {
      LinesCons(command, lines);
    }
    assert Join(pieces, '\n') == Encode(command, headers, order, body);
    assert '\n' !in body + "\0";
    SplitJoin(pieces, '\n');
  }

  lemma {:induction false} LinesCons(x: string, ls: seq<string>)
    ensures Lines([x] + ls) == x + "\n" + Lines(ls)
    decreases |ls|
  {
    if ls == [] {
      assert [x] + ls == [x];
      assert [x][..0] == [];
    } else {
      var init := ls[..|ls| - 1];
      assert ([x] + ls)[..|ls|] == [x] + init;
      LinesCons(x, init);
    }
  }

  // ---------------------------------------------------------------------------
  // Parsing frames from the server
  // ---------------------------------------------------------------------------

  /** How `StompServerFrame(text:)` ends. The two trap cases are the failed
      force-unwraps that stop the process: `components.first!` on an empty
      text and `Int(value)!` on a content length that is not an integer. */
  datatype ParseResult =
    | Parsed(frame: ServerFrame)
    | UnknownCommand(token: string)
    | EmptyTextTrap
    | ContentLengthTrap

  /** The variables of the parser's loop. */
  datatype ScanState = ScanState(headers: HeaderSet, body: string, isBody: bool)

  const Start := ScanState(map[], "", false)

  predicate EndsWithNul(s: string) { |s| > 0 && s[|s| - 1] == '\0' }

  /** One turn of the parser's loop. In the header part a line yields a
      header keyed by the text before its first colon, valued by the text
      after its last colon; the first empty line starts the body. In the body
      every line is appended, and once the body ends with a NUL every NUL is
      removed from it. `None` is the content-length trap. */
  function Step(st: ScanState, line: string): Option<ScanState>
  {
    if st.isBody then
      var body := st.body + line;
      Some(st.(body := if EndsWithNul(body) then RemoveAll(body, '\0') else body))
    else if line == "" then
      Some(st.(isBody := true))
    else
      var parts := Split(line, ':');
      match HeaderOf(parts[0], parts[|parts| - 1])
      case None => None
      case Some(h) => Some(st.(headers := Insert(st.headers, h)))
  }

  /** The parser's loop over a list of lines. */
  function Scan(st: ScanState, lines: seq<string>): Option<ScanState>
  {
    if lines == [] then Some(st)
    else
      match Scan(st, lines[..|lines| - 1])
      case None => None
      case Some(s) => Step(s, lines[|lines| - 1])
  }

  /** The lines of a text with one leading empty line dropped. */
  function FrameLines(text: string): seq<string>
  {
    var components := Split(text, '\n');
    if components[0] == "" then components[1..] else components
  }

  /** What `StompServerFrame(text:)` makes of a text. */
  function ParseText(text: string): ParseResult
  {
    var lines := FrameLines(text);
    if lines == [] then EmptyTextTrap
    else
      match ParseServerCommand(lines[0])
      case None => UnknownCommand(lines[0])
      case Some(command) =>
        match Scan(Start, lines[1..])
        case None => ContentLengthTrap
        case Some(st) => Parsed(ServerFrame(command, st.headers, st.body))
  }

  /** `StompServerFrame(text:)`, the loop over the text's lines. */
  method ParseServerFrame(text: string) returns (r: ParseResult)
    ensures r == ParseText(text)
  {
    var components := Split(text, '\n');
    if components[0] == "" {
      components := components[1..];
    }
    assert components == FrameLines(text);
    if |components| == 0 {
      return EmptyTextTrap;
    }
    var command := ParseServerCommand(components[0]);
    if command.None? {
      return UnknownCommand(components[0]);
    }
    var scanned := ScanComponents(components);
    match scanned
    case None => r := ContentLengthTrap;
    case Some(st) => r := Parsed(ServerFrame(command.value, st.headers, st.body));
  }

  /** The loop of `StompServerFrame(text:)` over the lines after the command
      line, with its variables `headers`, `body` and `isBody`. `None` is the
      content-length trap. */
  method ScanComponents(components: seq<string>) returns (r: Option<ScanState>)
    requires |components| >= 1
    ensures r == Scan(Start, components[1..])
  {
    var headers: HeaderSet := map[];
    var body := "";
    var isBody := false;
    for index := 1 to |components|
      invariant Scan(Start, components[1..index]) == Some(ScanState(headers, body, isBody))
    {
      var trapped;
      ScanSnoc(components[1..index], components[index]);
      SliceExtend(components, 1, index);
      trapped, headers, body, isBody := ReadComponent(headers, body, isBody, components[index]);
      if trapped {
        ScanTrapPersists(components, index + 1);
        return None;
      }
    }
    SliceToEnd(components, 1);
    r := Some(ScanState(headers, body, isBody));
  }

  /** One turn of the loop of `StompServerFrame(text:)`. */
  method ReadComponent(headers: HeaderSet, body: string, isBody: bool, component: string)
    returns (trapped: bool, headers': HeaderSet, body': string, isBody': bool)
    ensures trapped <==> Step(ScanState(headers, body, isBody), component).None?
    ensures !trapped ==> Step(ScanState(headers, body, isBody), component) == Some(ScanState(headers', body', isBody'))
  {
    trapped, headers', body', isBody' := false, headers, body, isBody;
    if isBody {
      body' := body + component;
      if EndsWithNul(body') {
        body' := RemoveAll(body', '\0');
      }
    } else if component == "" {
      isBody' := true;
    } else {
      var parts := Split(component, ':');
      var header := HeaderOf(parts[0], parts[|parts| - 1]);
      if header.None? {
        trapped := true;
      } else {
        headers' := Insert(headers, header.value);
      }
    }
  }

  /** A trap on some lines is a trap on every longer text. */
  lemma ScanTrapPersists(components: seq<string>, n: nat)
    requires 1 <= n <= |components| && Scan(Start, components[1..n]).None?
    ensures Scan(Start, components[1..]).None?
  {
    assert components[1..] == components[1..n] + components[n..];
    ScanAppend(Start, components[1..n], components[n..]);
  }

  lemma ScanSnoc(lines: seq<string>, line: string)
    ensures Scan(Start, lines + [line])
         == match Scan(Start, lines) case None => None case Some(s) => Step(s, line)
  {
    assert (lines + [line])[..|lines|] == lines;
  }

  /** The parser drops one leading empty line, then accepts a frame only when
      the first line is exactly one of the four server command tokens. */
  lemma ParseCommandLine(text: string)
    ensures var lines := FrameLines(text);
      && (text == "" <==> ParseText(text) == EmptyTextTrap)
      && (ParseText(text).Parsed? ==> lines[0] == ServerRaw(ParseText(text).frame.command))
      && (ParseText(text).UnknownCommand? <==> lines != [] && forall c :: ServerRaw(c) != lines[0])
  {
    var components := Split(text, '\n');
    if text != "" && components[0] == "" {
      assert '\n' in text by {
        FirstAndLastPiece(text, '\n');
      }
    }
  }

  lemma {:induction false} ScanAppend(st: ScanState, a: seq<string>, b: seq<string>)
    ensures Scan(st, a + b) == match Scan(st, a) case None => None case Some(s) => Scan(s, b)
    decreases |b|
  {
    if b == [] {
      assert a + b == a;
    } else {
      assert (a + b)[..|a + b| - 1] == a + b[..|b| - 1];
      ScanAppend(st, a, b[..|b| - 1]);
    }
  }

  /** While no empty line has been read the body stays empty. */
  lemma {:induction false} HeaderPartHasNoBody(lines: seq<string>)
    ensures Scan(Start, lines).Some? && !Scan(Start, lines).value.isBody
        ==> Scan(Start, lines).value.body == ""
    decreases |lines|
  {
    if lines != [] {
      HeaderPartHasNoBody(lines[..|lines| - 1]);
    }
  }

  /** The body of a parsed text that ends in a NUL holds no NUL. */
  lemma ParsedBodyHasNoNul(text: string)
    requires ParseText(text).Parsed?
    requires EndsWithNul(text)
    ensures '\0' !in ParseText(text).frame.body
  {
    var lines := FrameLines(text);
    var rest := lines[1..];
    assert ParseText(text).frame.body == Scan(Start, rest).value.body;
    if rest != [] {
      assert EndsWithNul(rest[|rest| - 1]) by {
        LastPieceEnd(text, '\n');
        var components := Split(text, '\n');
        assert rest[|rest| - 1] == components[|components| - 1];
      }
    }
    ScanEndingInNul(rest);
  }

  /** Lines whose last one ends in a NUL leave a body without NUL. */
  lemma ScanEndingInNul(lines: seq<string>)
    requires Scan(Start, lines).Some?
    requires lines != [] ==> EndsWithNul(lines[|lines| - 1])
    ensures '\0' !in Scan(Start, lines).value.body
  {
    if lines != [] {
      var last := lines[|lines| - 1];
      var before := Scan(Start, lines[..|lines| - 1]).value;
      if before.isBody {
        assert EndsWithNul(before.body + last);
      } else {
        HeaderPartHasNoBody(lines[..|lines| - 1]);
      }
    }
  }

  /** In the body part the lines are concatenated with no separator between
      them, as long as none of them holds a NUL. */
  lemma {:induction false} BodyLinesConcatenated(st: ScanState, lines: seq<string>)
    requires st.isBody && '\0' !in st.body
    requires forall i :: 0 <= i < |lines| ==> '\0' !in lines[i]
    ensures Scan(st, lines) == Some(st.(body := st.body + Concat(lines)))
    decreases |lines|
  {
    if lines == [] {
      assert st.body + Concat(lines) == st.body;
    } else {
      var init, last := lines[..|lines| - 1], lines[|lines| - 1];
      BodyLinesConcatenated(st, init);
      NoNulInConcat(init);
      var body := st.body + Concat(init) + last;
      assert '\0' !in body;
      assert !EndsWithNul(body);
      assert st.body + Concat(lines) == body;
    }
  }

  lemma {:induction false} NoNulInConcat(lines: seq<string>)
    requires forall i :: 0 <= i < |lines| ==> '\0' !in lines[i]
    ensures '\0' !in Concat(lines)
    decreases |lines|
  {
    if lines != [] {
      NoNulInConcat(lines[..|lines| - 1]);
    }
  }

  function Concat(lines: seq<string>): string
  {
    if lines == [] then "" else Concat(lines[..|lines| - 1]) + lines[|lines| - 1]
  }

  // ---------------------------------------------------------------------------
  // Round trip
  // ---------------------------------------------------------------------------

  /** A header survives the wire when neither its name nor its value holds a
      colon or a newline, and a content length's value is an integer. */
  ghost predicate WireSafeHeader(h: Header)
  {
    && ':' !in h.Key() && '\n' !in h.Key()
    && ':' !in h.Value() && '\n' !in h.Value()
    && (h.Key() == "content-length" ==> ParseInt(h.Value()).Some?)
  }

  ghost predicate WireSafe(headers: HeaderSet, body: string)
  {
    && (forall k :: k in headers ==> WireSafeHeader(headers[k]))
    && '\n' !in body && '\0' !in body
  }

  /** A wire-safe header's line is read back as the header its name and
      printed value make, added to the set unless the name is there. */
  lemma HeaderLineStep(st: ScanState, h: Header)
    requires !st.isBody && WireSafeHeader(h)
    ensures HeaderOf(h.Key(), h.Value()).Some?
    ensures Step(st, HeaderLine(h)) == Some(st.(headers := Insert(st.headers, HeaderOf(h.Key(), h.Value()).value)))
  {
    var line := HeaderLine(h);
    assert line == h.Key() + [':'] + h.Value();
    SplitAppend(h.Key(), ':', h.Value());
    SplitNoSeparator(h.Key(), ':');
    SplitNoSeparator(h.Value(), ':');
  }

  lemma HeaderLinesSnoc(headers: HeaderSet, order: seq<string>)
    requires order != []
    requires forall k :: k in order ==> k in headers
    ensures HeaderLines(headers, order)
         == HeaderLines(headers, order[..|order| - 1]) + [HeaderLine(headers[order[|order| - 1]])]
  {
  }

  /** The header a reader of the wire form makes of a header's line: the one
      its name and printed value make. */
  function ReadBack(h: Header): (r: Header)
    requires WireSafeHeader(h)
    ensures HeaderOf(h.Key(), h.Value()) == Some(r)
    ensures r.Key() == h.Key()
  {
    HeaderOf(h.Key(), h.Value()).value
  }

  /** The headers a reader of the wire form rebuilds from a frame's header
      lines. */
  function Reread(headers: HeaderSet): (r: HeaderSet)
    requires forall k :: k in headers ==> WireSafeHeader(headers[k])
    ensures r.Keys == headers.Keys
  {
    map k | k in headers :: ReadBack(headers[k])
  }

  /** The headers rebuilt from the lines of the names in `order`. */
  ghost function RereadLines(headers: HeaderSet, order: seq<string>): (r: HeaderSet)
    requires forall k :: k in order ==> k in headers
    requires forall k :: k in headers ==> WireSafeHeader(headers[k])
  {
    map k | k in order :: ReadBack(headers[k])
  }

  lemma RereadLinesSnoc(headers: HeaderSet, order: seq<string>, k: string)
    requires forall x :: x in order ==> x in headers
    requires k in headers && k !in order
    requires forall k :: k in headers ==> WireSafeHeader(headers[k])
    ensures RereadLines(headers, order + [k]) == Insert(RereadLines(headers, order), ReadBack(headers[k]))
  {
    var before := RereadLines(headers, order);
    var grown, inserted := RereadLines(headers, order + [k]), before[k := ReadBack(headers[k])];
    assert grown.Keys == inserted.Keys by {
      assert grown.Keys == before.Keys + {k};
    }
    forall x | x in grown
      ensures grown[x] == inserted[x]
    {
      if x != k {
        assert x in order;
      }
    }
  }

  /** Reading back the lines of every header, in any order. */
  lemma RereadAllLines(headers: HeaderSet, order: seq<string>)
    requires Enumerates(order, headers)
    requires forall k :: k in headers ==> WireSafeHeader(headers[k])
    ensures RereadLines(headers, order) == Reread(headers)
  {
  }

  /** Parsing the header lines of a frame, in any order, rebuilds one header
      per name from that name and the printed value. */
  lemma {:induction false} ScanHeaderLines(headers: HeaderSet, order: seq<string>)
    requires forall k :: k in order ==> k in headers
    requires forall i, j :: 0 <= i < j < |order| ==> order[i] != order[j]
    requires forall k :: k in headers ==> WireSafeHeader(headers[k])
    ensures Scan(Start, HeaderLines(headers, order)) == Some(ScanState(RereadLines(headers, order), "", false))
    decreases |order|
  {
    if order == [] {
      assert Scan(Start, HeaderLines(headers, order)) == Some(Start);
    } else {
      var init := order[..|order| - 1];
      ScanHeaderLines(headers, init);
      ScanHeaderLinesStep(headers, init, order[|order| - 1]);
      FrontAndLast(order);
    }
  }

  /** One more header line scanned. */
  lemma ScanHeaderLinesStep(headers: HeaderSet, init: seq<string>, k: string)
    requires forall x :: x in init ==> x in headers
    requires k !in init
    requires k in headers
    requires forall k :: k in headers ==> WireSafeHeader(headers[k])
    requires Scan(Start, HeaderLines(headers, init)) == Some(ScanState(RereadLines(headers, init), "", false))
    ensures Scan(Start, HeaderLines(headers, init + [k])) == Some(ScanState(RereadLines(headers, init + [k]), "", false))
  {
    var order := init + [k];
    var h := headers[k];
    var before := ScanState(RereadLines(headers, init), "", false);
    assert Scan(Start, HeaderLines(headers, order)) == Step(before, HeaderLine(h)) by {
      ConcatParts(init, [k]);
      HeaderLinesSnoc(headers, order);
      ScanSnoc(HeaderLines(headers, init), HeaderLine(h));
    }
    assert Step(before, HeaderLine(h)) == Some(before.(headers := Insert(before.headers, ReadBack(h)))) by {
      HeaderLineStep(before, h);
    }
    RereadLinesSnoc(headers, init, k);
  }

  /** A text whose lines are a server command token and then more lines is
      parsed by scanning those lines. */
  lemma ParseTextOfLines(text: string, command: ServerCommand, rest: seq<string>)
    requires FrameLines(text) == [ServerRaw(command)] + rest
    ensures Scan(Start, rest).Some? ==>
      ParseText(text) == Parsed(ServerFrame(command, Scan(Start, rest).value.headers, Scan(Start, rest).value.body))
  {
    ConcatParts([ServerRaw(command)], rest);
    CommandTokensRoundTrip(ClientCommand.Send, command);
  }

  /** The empty line and then the body with its NUL make the body. */
  lemma ScanBodyLines(st: ScanState, body: string)
    requires !st.isBody && st.body == "" && '\0' !in body
    ensures Scan(st, ["", body + "\0"]) == Some(st.(isBody := true, body := body))
  {
    var withNul := body + "\0";
    var inBody := st.(isBody := true);
    assert [""][..0] == [];
    assert Scan(st, [""]) == Some(inBody);
    assert ["", withNul][..1] == [""];
    assert inBody.body + withNul == withNul;
    assert EndsWithNul(withNul);
    RemoveLast(body, '\0');
    assert Step(inBody, withNul) == Some(inBody.(body := body));
  }

  /** The description of a server frame falls apart into its command token,
      its header lines, and the lines of the body. */
  lemma DescriptionLines(f: ServerFrame, order: seq<string>, s: string)
    requires WireSafe(f.headers, f.body)
    requires Enumerates(order, f.headers)
    requires s == Encode(ServerRaw(f.command), f.headers, order, f.body)
    ensures FrameLines(s) == [ServerRaw(f.command)] + (HeaderLines(f.headers, order) + ["", f.body + "\0"])
  {
    var command := ServerRaw(f.command);
    var lines := HeaderLines(f.headers, order);
    assert forall i :: 0 <= i < |order| ==> '\n' !in HeaderLine(f.headers[order[i]]) by {
      forall i | 0 <= i < |order| ensures '\n' !in HeaderLine(f.headers[order[i]]) {
        assert WireSafeHeader(f.headers[order[i]]);
      }
    }
    var tail := ["", f.body + "\0"];
    assert Split(s, '\n') == [command] + lines + tail by {
      EncodeSplit(command, f.headers, order, f.body);
    }
    assert command != "";
    assert [command] + lines + tail == [command] + (lines + tail);
  }

  /** Parsing the description of a server frame gives back its command and
      body, and under each of its header names the header that name and
      the printed value make. */
  lemma RoundTrip(f: ServerFrame, s: string)
    requires WireSafe(f.headers, f.body)
    requires IsServerDescription(f, s)
    ensures ParseText(s) == Parsed(ServerFrame(f.command, Reread(f.headers), f.body))
  {
    var order :| Enumerates(order, f.headers) && s == Encode(ServerRaw(f.command), f.headers, order, f.body);
    var lines := HeaderLines(f.headers, order);
    var tail := ["", f.body + "\0"];
    var reread := Reread(f.headers);
    assert Scan(Start, lines) == Some(ScanState(reread, "", false)) by {
      ScanHeaderLines(f.headers, order);
      RereadAllLines(f.headers, order);
    }
    assert Scan(Start, lines + tail) == Some(ScanState(reread, f.body, true)) by {
      ScanBodyLines(ScanState(reread, "", false), f.body);
      ScanAppend(Start, lines, tail);
    }
    assert FrameLines(s) == [ServerRaw(f.command)] + (lines + tail) by {
      DescriptionLines(f, order, s);
    }
    ParseTextOfLines(s, f.command, lines + tail);
  }

  /** The names and printed values of a frame's headers; what a reader of the
      wire form sees. */
  function Pairs(headers: HeaderSet): (pairs: map<string, string>)
    ensures pairs.Keys == headers.Keys
  {
    map k | k in headers :: headers[k].Value()
  }

  /** Parsing a description gives back the same command, body and name/value
      pairs, when content lengths are written as Swift writes integers. */
  lemma RoundTripPairs(f: ServerFrame, s: string)
    requires WireSafe(f.headers, f.body)
    requires forall k :: k in f.headers && k == "content-length" ==>
      FormatInt(ParseInt(f.headers[k].Value()).value) == f.headers[k].Value()
    requires IsServerDescription(f, s)
    ensures ParseText(s).Parsed?
    ensures ParseText(s).frame.command == f.command && ParseText(s).frame.body == f.body
    ensures Pairs(ParseText(s).frame.headers) == Pairs(f.headers)
  {
    RoundTrip(f, s);
    var g := Reread(f.headers);
    forall k | k in f.headers
      ensures g[k].Value() == f.headers[k].Value()
    {
    }
  }

  /** A frame whose headers are all in the form `StompHeader(key:value:)`
      makes is parsed back from its description unchanged. */
  lemma RoundTripExact(f: ServerFrame, s: string)
    requires WireSafe(f.headers, f.body)
    requires forall k :: k in f.headers ==> HeaderOf(k, f.headers[k].Value()) == Some(f.headers[k])
    requires IsServerDescription(f, s)
    ensures ParseText(s) == Parsed(f)
  {
    RoundTrip(f, s);
    assert Reread(f.headers) == f.headers;
  }
}
