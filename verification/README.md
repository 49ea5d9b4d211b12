# STOMP client engine of howdi-sockets, in Dafny

This project models the STOMP client engine of the howdi-sockets Swift
library and proves properties of it. The engine is made of four parts:

- **The frame codec** (`frame.dfy`, module `StompFrame`).
  - Client and server commands, and the typed headers with their name-only equality.
  - The `description` of a frame, and the line-by-line parser `StompServerFrame(text:)`.
  - The round trip between the two.
- **The frame builders** of `StompSpecification` (`specification.dfy`): CONNECT,
  SUBSCRIBE, SEND, UNSUBSCRIBE, ACK and DISCONNECT, plus the generated ids and
  the heart-beat.
- **`FrameQueue`** (`queue.dfy`): an array of optional frames with a head index,
  compacted in place.
- **The two clients** (`client.dfy`): `WebsocketStompClient` and `OfflineStompClient`.

`text.dfy` (module `StompText`) holds the string operations the Swift code
borrows from Foundation:
- `components(separatedBy:)`;
- `Int(_:)` and `Int.description`;
- `replacingOccurrences` of NUL;
- `utf8.count`.

Modelling choices:

- **Header sets.** A `Set<StompHeader>` is a map from header name to header
  (`HeaderSet`), because two headers are equal exactly when their names are.
  `Set.insert` keeps the member already present, and so does `Insert`.
- **Header order.** Swift does not specify the order in which a `Set` is
  iterated. A description is therefore specified for *some* order of the
  headers (`IsDescription`). The describing loop is proved to produce one of
  those forms.
- **Crashes.** The parser has two force-unwraps:
  - `components.first!` on empty text, modelled as `EmptyTextTrap`;
  - `Int(value)!` on a `content-length` header, modelled as `ContentLengthTrap`.
  A client that reaches either logs `Aborted`.
- **The websocket** is a `connected` flag. Everything the clients do to the
  world is appended to an ordered log of `Effect`s:
  - writes to the socket;
  - requests to open and close the socket;
  - calls to the delegate.
- **Numbers drawn by `arc4random_uniform(1000)`** and the outcome of the JSON
  encoding are parameters of the operations that use them.

## Model

| member | source | states |
|---|---|---|
| StompFrame.ParseClientCommand | howdi-sockets/Sockets/StompFrame.swift:91-112 | accepts exactly the raw values of the 11 client commands, each giving its own command; any other token is refused |
| StompFrame.ParseServerCommand | howdi-sockets/Sockets/StompFrame.swift:114-127 | accepts exactly CONNECTED, MESSAGE, RECEIPT and ERROR; any other token is refused |
| StompFrame.ClientRaw | howdi-sockets/Sockets/StompFrame.swift:91-102 | a client command's raw value is a word of at least three capital letters, so it holds no colon, newline or NUL; its partner is CommandTokensRoundTrip |
| StompFrame.ServerRaw | howdi-sockets/Sockets/StompFrame.swift:114-118 | the same for a server command's raw value; its partner is CommandTokensRoundTrip |
| StompFrame.HeaderKeys | howdi-sockets/Sockets/StompFrame.swift:201-242 | `key` of a typed header is one of the reserved names, and of a custom header the name it carries; its partner is HeaderOfKeyValue |
| StompFrame.HeaderValues | howdi-sockets/Sockets/StompFrame.swift:244-285 | `value` of a 64-bit content length reads back through `Int(_:)` to that length, and of a custom header is the value it carries; its partner is HeaderOfKeyValue |
| StompFrame.CommandTokensRoundTrip | howdi-sockets/Sockets/StompFrame.swift:91-127 | parsing a command's raw value gives back that command, for both enums |
| StompFrame.HeaderOf | howdi-sockets/Sockets/StompFrame.swift:158-199 | the header made from a name and a value has that name; for every name but `content-length` its printed value is the value given; `content-length` succeeds exactly when the value parses as a 64-bit integer and holds that integer; the header is custom exactly when the name is not a reserved one |
| StompFrame.HeaderOfKeyValue | howdi-sockets/Sockets/StompFrame.swift:158-285 | rebuilding a header from its own name and printed value gives it back, exactly when a content length fits in 64 bits and a custom header does not use a reserved name |
| StompFrame.MembersUniqueByKey | howdi-sockets/Sockets/StompFrame.swift:287-293 | two members of a header set have the same name exactly when they are the same header |
| StompFrame.Insert | howdi-sockets/Sockets/StompFrame.swift:70 | inserting adds the header's name; every header already present is kept, and the new header lands only under a name not yet present (first wins) |
| StompFrame.GetHeader | howdi-sockets/Sockets/StompClient.swift:183-185 | the printed value of the header with the given name, or the empty string when there is none |
| StompFrame.Describe | howdi-sockets/Sockets/StompFrame.swift:18-28 | the describing loop yields the command line, one `key:value` line per header in some order visiting each header once, an empty line, the body and a NUL |
| StompFrame.DescribeClientFrame | howdi-sockets/Sockets/StompFrame.swift:18-28 | a client frame's `description` is one of its wire forms |
| StompFrame.DescribeServerFrame | howdi-sockets/Sockets/StompFrame.swift:78-88 | a server frame's `description` is one of its wire forms |
| StompFrame.DescriptionShape | howdi-sockets/Sockets/StompFrame.swift:18-28 | every description starts with the command and a newline, and ends with a newline, the body and a NUL |
| StompFrame.EncodeSplit | howdi-sockets/Sockets/StompFrame.swift:78-88 | split at newlines, a description gives the command, the header lines, an empty line and the body followed by NUL |
| StompFrame.ParseServerFrame | howdi-sockets/Sockets/StompFrame.swift:42-76 | the parser's loop over the text's lines computes the parse result `ParseText` defines |
| StompFrame.ScanComponents | howdi-sockets/Sockets/StompFrame.swift:54-73 | the loop over the lines after the command computes the scan of those lines |
| StompFrame.ReadComponent | howdi-sockets/Sockets/StompFrame.swift:55-72 | one turn of the loop body performs one step of the scan, and traps exactly where the step does |
| StompFrame.ScanTrapPersists | howdi-sockets/Sockets/StompFrame.swift:54-73 | once a header line has crashed the parser, no later line rescues it |
| StompFrame.ParseCommandLine | howdi-sockets/Sockets/StompFrame.swift:43-49 | the parser crashes on the first line exactly when the text is empty; a parsed frame's command is the first line left after dropping one leading empty line; an unknown command is reported exactly when that line is no server command |
| StompFrame.HeaderPartHasNoBody | howdi-sockets/Sockets/StompFrame.swift:56-70 | before the first empty line the body is still empty |
| StompFrame.ParsedBodyHasNoNul | howdi-sockets/Sockets/StompFrame.swift:56-60 | the body parsed from a text ending in NUL holds no NUL |
| StompFrame.ScanEndingInNul | howdi-sockets/Sockets/StompFrame.swift:56-60 | after lines whose last one ends in NUL, the body holds no NUL |
| StompFrame.BodyLinesConcatenated | howdi-sockets/Sockets/StompFrame.swift:56-57 | body lines without NUL are appended to the body with no separator |
| StompFrame.HeaderLineStep | howdi-sockets/Sockets/StompFrame.swift:62-70 | a header line of a wire-safe header adds to the set the header rebuilt from its name and printed value |
| StompFrame.ReadBack | howdi-sockets/Sockets/StompFrame.swift:158-285 | the header read back from a wire-safe header's line exists and has the same name |
| StompFrame.Reread | howdi-sockets/Sockets/StompFrame.swift:62-70 | rereading a header set keeps its names |
| StompFrame.ScanHeaderLines | howdi-sockets/Sockets/StompFrame.swift:62-70 | the header lines of a description, scanned, give the set of headers reread from those lines, with an empty body and still in the header part |
| StompFrame.ScanBodyLines | howdi-sockets/Sockets/StompFrame.swift:56-66 | the empty line and the line `body + NUL` switch to the body and leave exactly the body |
| StompFrame.RoundTrip | howdi-sockets/Sockets/StompFrame.swift:42-88 | parsing a server frame's description gives back its command, its body and under each name the header rebuilt from the printed value, when no name or value holds `:` or a newline, the body holds no newline or NUL, and a content length's value is an integer |
| StompFrame.RoundTripPairs | howdi-sockets/Sockets/StompFrame.swift:42-88 | under the same conditions, with content lengths printed canonically, the parsed frame has the same command, body and name/value pairs |
| StompFrame.RoundTripExact | howdi-sockets/Sockets/StompFrame.swift:42-88 | when every header is the one its name and printed value make, parsing the description gives back the frame itself |
| StompText.Split | howdi-sockets/Sockets/StompFrame.swift:43 | `components(separatedBy:)` gives at least one piece, none holding the separator, and a single piece exactly when the separator does not occur |
| StompText.SplitJoin | howdi-sockets/Sockets/StompFrame.swift:43 | splitting pieces joined by the separator gives them back when no piece holds it |
| StompText.JoinSplit | howdi-sockets/Sockets/StompFrame.swift:43 | joining the pieces of a split gives back the text |
| StompText.RemoveAll | howdi-sockets/Sockets/StompFrame.swift:59 | removing every NUL leaves none and keeps every other character with its multiplicity (`multiset(r) == multiset(s)[c := 0]`); a text without NUL is returned as it is |
| StompText.RemoveAllChar | howdi-sockets/Sockets/StompFrame.swift:59 | a single character is dropped exactly when it is the removed one |
| StompText.RemoveAllConcat | howdi-sockets/Sockets/StompFrame.swift:59 | removal distributes over concatenation, so the characters that remain keep their order |
| StompText.ParseInt | howdi-sockets/Sockets/StompFrame.swift:161 | `Int(_:)` accepts only a non-empty text whose value fits in 64 bits, and a text without a leading `-` gives a non-negative value; its partner is ParseFormatInt |
| StompText.FormatInt | howdi-sockets/Sockets/StompFrame.swift:249 | `"\(length)"` prints a `-` exactly for a negative number, followed by at least one digit and no leading zero; its partner is ParseFormatInt |
| StompText.ParseFormatInt | howdi-sockets/Sockets/StompFrame.swift:161 | `Int(_:)` reads back what `Int.description` prints, for every 64-bit integer |
| StompText.Utf8Length | howdi-sockets/Sockets/StompClient.swift:50 | the UTF-8 length lies between one and four bytes per character, and is the character count for ASCII text |
| StompSpecification.ConnectFrame | howdi-sockets/Sockets/StompClient.swift:30-34 | CONNECT carries exactly accept-version `1.1,1.2`, the host and heart-beat `10000,10000`, and no body |
| StompSpecification.SubscribeFrame | howdi-sockets/Sockets/StompClient.swift:36-44 | SUBSCRIBE carries the id, the destination, ack `client-individual` and the caller's headers; a caller's header named id, destination or ack cannot override the built-in one |
| StompSpecification.InsertCustomHeaders | howdi-sockets/Sockets/StompClient.swift:39-41 | inserting the caller's headers in whatever order the dictionary yields gives the same set: new names become custom headers, existing ones are kept |
| StompSpecification.WithCustomSnoc | howdi-sockets/Sockets/StompClient.swift:39-41 | inserting one more custom header matches adding it to the caller's dictionary |
| StompSpecification.SendJSONFrame | howdi-sockets/Sockets/StompClient.swift:46-57 | SEND carries the destination, the JSON content type and a content length equal to the UTF-8 byte length of the body, plus caller headers that cannot override those three |
| StompSpecification.UnsubscribeFrame | howdi-sockets/Sockets/StompClient.swift:59-63 | UNSUBSCRIBE carries only the subscription id under `id` |
| StompSpecification.AckFrame | howdi-sockets/Sockets/StompClient.swift:65-69 | ACK carries only the message id, under `id` |
| StompSpecification.DisconnectFrame | howdi-sockets/Sockets/StompClient.swift:71-75 | DISCONNECT carries only the receipt |
| StompSpecification.GenerateReceipt | howdi-sockets/Sockets/StompClient.swift:77-79 | a receipt is `receipt-` followed by the decimal number drawn |
| StompSpecification.GenerateSubscriptionId | howdi-sockets/Sockets/StompClient.swift:81-83 | a subscription id is `subscription-id-` followed by the decimal number drawn |
| StompSpecification.ReceiptsDistinct | howdi-sockets/Sockets/StompClient.swift:77-79 | two receipts are equal exactly when the numbers drawn are |
| StompSpecification.SubscriptionIdsDistinct | howdi-sockets/Sockets/StompClient.swift:81-83 | two subscription ids are equal exactly when the numbers drawn are |
| StompSpecification.HeartBeatHasEmptyFirstLine | howdi-sockets/Sockets/StompClient.swift:85-87 | the heart-beat's first line is empty |
| FrameQueues.FrameQueue.constructor | howdi-sockets/Sockets/StompClient.swift:256-258 | a new queue is empty and has seen no frames |
| FrameQueues.FrameQueue.Count | howdi-sockets/Sockets/StompClient.swift:264-266 | `count` is the number of frames waiting, which is the number enqueued minus the number dequeued |
| FrameQueues.FrameQueue.IsEmpty | howdi-sockets/Sockets/StompClient.swift:260-262 | `isEmpty` holds exactly when no frame waits, which is when `count` is 0 |
| FrameQueues.FrameQueue.Front | howdi-sockets/Sockets/StompClient.swift:287-293 | `front` is nil on an empty queue and otherwise the oldest waiting frame, the one the next dequeue returns |
| FrameQueues.FrameQueue.FirstInFirstOut | howdi-sockets/Sockets/StompClient.swift:256-285 | the frames dequeued so far are the oldest frames enqueued, in order, and the waiting frames are the rest |
| FrameQueues.FrameQueue.Enqueue | howdi-sockets/Sockets/StompClient.swift:268-270 | the frame joins the tail of the queue |
| FrameQueues.FrameQueue.Dequeue | howdi-sockets/Sockets/StompClient.swift:272-285 | on an empty queue it returns nil and changes nothing; otherwise it returns the oldest frame and removes it; the slots are compacted exactly when there are more than 50 and more than a quarter are consumed, which drops only consumed slots and resets the head to 0 |
| StompClients.SentNothing | howdi-sockets/Sockets/StompClient.swift:142-150 | sending no frames changes neither the queue nor the log |
| StompClients.SentConcat | howdi-sockets/Sockets/StompClient.swift:142-150 | sending frames one batch after another is sending them all in that order |
| StompClients.WroteAllConcat | howdi-sockets/Sockets/StompClient.swift:142-146 | writing two batches of frames one after the other is writing them all in that order |
| StompClients.WritesOfConcat | howdi-sockets/Sockets/StompClient.swift:142-146 | the writes of two batches of frames, concatenated, are the writes of the concatenated batches |
| StompClients.Classify | howdi-sockets/Sockets/StompClient.swift:166-197 | inbound text is a heart-beat request exactly when its first line is empty; otherwise it is classified as the frame it parses as, as an unknown command, or as a crash, and a crash can only come from a content-length header |
| StompClients.ClassifyServerDescription | howdi-sockets/Sockets/StompClient.swift:166-183 | a server frame's description reaches the dispatch as that frame, each header reread from its printed value |
| StompClients.HeartBeatIsHeartBeatRequest | howdi-sockets/Sockets/StompClient.swift:85-87 | the client's own heart-beat is classified as a heart-beat request |
| StompClients.DrainToWebsocket | howdi-sockets/Sockets/StompClient.swift:207-211 | every queued frame goes to the websocket client in FIFO order, and the queue is left empty |
| StompClients.DrainToOffline | howdi-sockets/Sockets/StompClient.swift:249-253 | every queued frame joins the offline client's queue in FIFO order, and the queue is left empty |
| StompClients.WebsocketStompClient.constructor | howdi-sockets/Sockets/StompClient.swift:101-110 | a new client is not connected, has no pending receipt, has an empty queue and has done nothing |
| StompClients.WebsocketStompClient.Connect | howdi-sockets/Sockets/StompClient.swift:112-114 | `connect()` only asks the socket to connect |
| StompClients.WebsocketStompClient.SendFrame | howdi-sockets/Sockets/StompClient.swift:142-150 | while connected, one write of a description of the frame with the queue unchanged; otherwise the frame joins the queue's tail with one enqueue notice and no write |
| StompClients.WebsocketStompClient.SendJSONMessage | howdi-sockets/Sockets/StompClient.swift:116-122 | sends the SEND frame built without the caller's headers; on an encoding failure, one error notice and nothing sent or queued |
| StompClients.WebsocketStompClient.Subscribe | howdi-sockets/Sockets/StompClient.swift:124-130 | sends the SUBSCRIBE frame and returns the subscription id it carries under `id` |
| StompClients.WebsocketStompClient.Unsubscribe | howdi-sockets/Sockets/StompClient.swift:132-134 | sends the UNSUBSCRIBE frame for the id |
| StompClients.WebsocketStompClient.Disconnect | howdi-sockets/Sockets/StompClient.swift:136-140 | stores a fresh receipt and sends the DISCONNECT frame carrying that same receipt |
| StompClients.WebsocketStompClient.ResignToWebsocket | howdi-sockets/Sockets/StompClient.swift:152-156 | hands every queued frame to the other client in FIFO order, then closes the socket |
| StompClients.WebsocketStompClient.ResignToOffline | howdi-sockets/Sockets/StompClient.swift:152-156 | appends every queued frame to the offline client's queue in FIFO order, then closes the socket |
| StompClients.WebsocketStompClient.SocketDidConnect | howdi-sockets/Sockets/StompClient.swift:158-160 | once connected, the CONNECT frame for the host is written at once and the queue is untouched |
| StompClients.WebsocketStompClient.SocketDidDisconnect | howdi-sockets/Sockets/StompClient.swift:162-164 | the socket is no longer connected, the delegate is told the error, and the queue survives |
| StompClients.WebsocketStompClient.FlushQueue | howdi-sockets/Sockets/StompClient.swift:178-179 | every queued frame is written in FIFO order and the queue is left empty; the connection state and pending receipt are unchanged |
| StompClients.WebsocketStompClient.ReceiveText | howdi-sockets/Sockets/StompClient.swift:166-197 | a heart-beat request gets exactly one write of the heart-beat; an unknown command gets one error notice; a crash stops the client; otherwise the frame is dispatched as in HandleFrame. The queue and the pending receipt are unchanged except as the dispatch says |
| StompClients.WebsocketStompClient.HandleFrame | howdi-sockets/Sockets/StompClient.swift:177-192 | CONNECTED writes every queued frame in FIFO order, leaves the queue empty, then tells the delegate; MESSAGE sends one ACK whose `id` is the message's `message-id`; RECEIPT closes the socket exactly when its `receipt-id` is the stored receipt; ERROR does nothing |
| StompClients.OfflineStompClient.constructor | howdi-sockets/Sockets/StompClient.swift:214-219 | a new offline client has an empty queue |
| StompClients.OfflineStompClient.SendFrame | howdi-sockets/Sockets/StompClient.swift:245-247 | the frame joins the queue's tail |
| StompClients.OfflineStompClient.SendJSONMessage | howdi-sockets/Sockets/StompClient.swift:223-227 | queues the SEND frame built without the caller's headers; an encoding failure is swallowed and queues nothing |
| StompClients.OfflineStompClient.Subscribe | howdi-sockets/Sockets/StompClient.swift:229-235 | queues the SUBSCRIBE frame and returns the id it carries |
| StompClients.OfflineStompClient.Unsubscribe | howdi-sockets/Sockets/StompClient.swift:237-239 | queues the UNSUBSCRIBE frame |
| StompClients.OfflineStompClient.Disconnect | howdi-sockets/Sockets/StompClient.swift:241-243 | queues a DISCONNECT frame with a fresh receipt, which is not stored |
| StompClients.OfflineStompClient.ResignToWebsocket | howdi-sockets/Sockets/StompClient.swift:249-253 | hands every queued frame to the websocket client in FIFO order |
| StompClients.OfflineStompClient.ResignToOffline | howdi-sockets/Sockets/StompClient.swift:249-253 | appends every queued frame to the other offline client's queue in FIFO order |

## Left out

- `HowdiWebsocketService.swift` is not part of this model. It holds the process-wide service, its reconnect timers and its pause policy.
- The websocket library is not modelled. The socket is a `connected` flag that the connect and disconnect callbacks set. The requests `socket.connect()` and `socket.disconnect()` are effects in the log, and nothing follows from them by themselves.
- `websocketDidReceiveData` is not modelled; it does nothing.
- The order in which delegate calls and socket events interleave across threads is not modelled. Every operation runs to completion.
- `JSONSerialization` is not modelled. A message arrives as `Option<string>`: the encoded text, or `None` when encoding throws. The UTF-8 decode of the encoded data is assumed to succeed.
- `arc4random_uniform(1000)` is not modelled. The number drawn is a parameter in `0..999`, so ids are unique only when the draws differ (`ReceiptsDistinct`, `SubscriptionIdsDistinct`).
- `print` is not modelled.
- Swift's `Hasher` is not modelled. Header equality is name equality, with no hash collisions.
- The compaction test `Double(head) / Double(array.count) > 0.25` is stated as `4 * head > count`. The two agree for every array of at most 2^53 slots. Below that size, the rounded quotient can only equal 0.25 when the exact one does.
- STOMP 1.2 header escaping (`\c`, `\n`, `\\`) is not modelled; the code does not implement it. The BEGIN, COMMIT, ABORT, NACK and STOMP commands exist only as command tokens.
- `OfflineStompClient.connect()` is not modelled; it does nothing.
- The offline client's `isConnected` is not modelled; it is always false.
- `url.host!` is not modelled. The host is given as a string, so a URL without a host is not covered.
- The delegate is assumed to be set. With no delegate, the notices in the log would simply not happen.
- `stompClientDidReceiveJSONMessage` is not modelled. No code path calls it, and a MESSAGE frame is only acknowledged.
- `frame.getHeader(_:)` is not part of the source files. `GetHeader` gives the printed value of the header with that name, and the empty string when there is none.
- StompClients.WebsocketStompClient.ReceiveText: requires that a CONNECTED frame over a disconnected socket arrives only while nothing is queued (HandleFrame and FlushQueue likewise). With frames queued, the drain in `sendFramesToClient` (StompClient.swift:208-212) hands each frame back to `sendFrame`, which queues it again, so the loop never ends.
- StompClients.WebsocketStompClient.ResignToWebsocket: requires the receiving client to be a different client with a different queue. Resigning to itself, or draining into its own queue, is not modelled.
- StompClients.OfflineStompClient.ResignToOffline: requires the receiving queue to be a different queue, for the same reason.
- FrameQueues.FrameQueue: the array is modelled as a `seq` that the methods reassign, so sharing of the array between copies of the struct is not modelled.
- StompFrame.RoundTrip: stated only for frames whose names and values hold no `:` or newline and whose body holds no newline or NUL. Other frames do not survive the description, because the parser keeps only the text after a value's last colon and splits the body at newlines.
- The description's header order is left unspecified, as Swift's `Set` leaves it.
- Header names, header values and receipts are compared as sequences of Unicode scalar values. Swift's `String` equality and hashing work up to canonical equivalence (StompFrame.swift:158-159 and 287-293, StompClient.swift:185), so `"\u{E9}"` and `"e\u{301}"` are one name there and two names here.

Behaviour of the code worth knowing (the model follows it):
- A header inserted under a name already present is dropped: the first one wins. This matches section "Repeated Header Entries" of STOMP 1.2, where the first of repeated headers is used.
- A header line without a colon is not skipped. It yields a header whose name and value are both the whole line.
- A `content-length` value that is not an integer crashes the parser instead of being reported as an error.
- MESSAGE frames are not delivered to the delegate, and ERROR frames are not reported to it.
- The heart-beat answer is `"\n\n"`, written for any text whose first line is empty.
