/** `StompSpecification`: the frames the client sends, each with its fixed
    set of headers, and the identifiers it makes up for subscriptions and
    receipts. */
module StompSpecification {
  import opened StompText
  import opened StompFrame

  /** The caller's extra headers inserted one by one as custom headers. A set
      keeps the header it already has under a name, so an extra header never
      replaces one the frame already carries. */
  function WithCustom(headers: HeaderSet, custom: map<string, string>): (r: HeaderSet)
    ensures r.Keys == headers.Keys + custom.Keys
    ensures forall k :: k in headers ==> r[k] == headers[k]
    ensures forall k :: k in custom && k !in headers ==> r[k] == Custom(k, custom[k])
  {
    map k | k in headers.Keys + custom.Keys :: if k in headers then headers[k] else Custom(k, custom[k])
  }

  /** The loop `for (key, value) in headers { stompHeaders.insert(.custom(...)) }`,
      visiting the caller's dictionary in whatever order it yields. */
  method InsertCustomHeaders(headers: HeaderSet, custom: map<string, string>) returns (r: HeaderSet)
    ensures r == WithCustom(headers, custom)
  {
    r := headers;
    var remaining := custom.Keys;
    ghost var done: map<string, string> := map[];
    assert WithCustom(headers, done) == headers;
    while remaining != {}
      invariant remaining <= custom.Keys
      invariant done.Keys == custom.Keys - remaining
      invariant forall x :: x in done ==> done[x] == custom[x]
      invariant r == WithCustom(headers, done)
      decreases remaining
    {
      var k :| k in remaining;
      WithCustomSnoc(headers, done, k, custom[k]);
      r := Insert(r, Custom(k, custom[k]));
      done := done[k := custom[k]];
      remaining := remaining - {k};
    }
    assert done == custom;
  }

  /** Inserting one more of the caller's headers. */
  lemma WithCustomSnoc(headers: HeaderSet, done: map<string, string>, k: string, v: string)
    requires k !in done
    ensures WithCustom(headers, done[k := v]) == Insert(WithCustom(headers, done), Custom(k, v))
  {
    var before, after := WithCustom(headers, done), WithCustom(headers, done[k := v]);
    var inserted := Insert(before, Custom(k, v));
    assert after.Keys == inserted.Keys;
    forall x | x in after
      ensures after[x] == inserted[x]
    {
    }
  }

  const AcceptedVersions: string := "1.1,1.2"
  const HeartBeatIntervals: string := "10000,10000"
  const IndividualAck: string := "client-individual"
  const JsonContentType: string := "application/json;charset=UTF-8"

  /** `connect(host:)`. */
  function ConnectFrame(host: string): (f: ClientFrame)
    ensures f.command == Connect && f.body == ""
    ensures f.headers.Keys == {"accept-version", "host", "heart-beat"}
    ensures f.headers["accept-version"] == AcceptVersion(AcceptedVersions)
    ensures f.headers["host"] == Host(host)
    ensures f.headers["heart-beat"] == HeartBeat(HeartBeatIntervals)
  {
    ClientFrame(Connect, map["accept-version" := AcceptVersion(AcceptedVersions), "host" := Host(host), "heart-beat" := HeartBeat(HeartBeatIntervals)], "")
  }

  /** `subscribe(id:destination:headers:)`: the id, the destination and the
      acknowledgement mode cannot be overridden by the caller's headers. */
  function SubscribeFrame(id: string, destination: string, custom: map<string, string>): (f: ClientFrame)
    ensures f.command == Subscribe && f.body == ""
    ensures f.headers.Keys == {"id", "destination", "ack"} + custom.Keys
    ensures f.headers["id"] == SubscriptionId(id)
    ensures f.headers["destination"] == Destination(destination)
    ensures f.headers["ack"] == AckMode(IndividualAck)
    ensures forall k :: k in custom && k !in {"id", "destination", "ack"} ==> f.headers[k] == Custom(k, custom[k])
  {
    ClientFrame(Subscribe, WithCustom(SubscribeHeaders(id, destination), custom), "")
  }

  /** The header set literal of `subscribe(id:destination:headers:)`. */
  function SubscribeHeaders(id: string, destination: string): (r: HeaderSet)
    ensures r.Keys == {"id", "destination", "ack"}
    ensures r["id"] == SubscriptionId(id) && r["destination"] == Destination(destination)
    ensures r["ack"] == AckMode(IndividualAck)
  {
    map["id" := SubscriptionId(id), "destination" := Destination(destination), "ack" := AckMode(IndividualAck)]
  }

  /** `sendJSONMessage(destination:data:headers:)` once the data is encoded as
      `message`: the content length is the number of UTF-8 bytes of the body. */
  function SendJSONFrame(destination: string, message: string, custom: map<string, string>): (f: ClientFrame)
    ensures f.command == Send && f.body == message
    ensures f.headers.Keys == {"destination", "content-type", "content-length"} + custom.Keys
    ensures f.headers["destination"] == Destination(destination)
    ensures f.headers["content-type"] == ContentType(JsonContentType)
    ensures f.headers["content-length"] == ContentLength(Utf8Length(f.body))
    ensures forall k :: k in custom && k !in {"destination", "content-type", "content-length"} ==>
      f.headers[k] == Custom(k, custom[k])
  {
    ClientFrame(Send, WithCustom(SendHeaders(destination, message), custom), message)
  }

  /** The header set literal of `sendJSONMessage(destination:data:headers:)`. */
  function SendHeaders(destination: string, message: string): (r: HeaderSet)
    ensures r.Keys == {"destination", "content-type", "content-length"}
    ensures r["destination"] == Destination(destination) && r["content-type"] == ContentType(JsonContentType)
    ensures r["content-length"] == ContentLength(Utf8Length(message))
  {
    map[
      "destination" := Destination(destination),
      "content-type" := ContentType(JsonContentType),
      "content-length" := ContentLength(Utf8Length(message))]
  }

  /** `unsubscribe(subscriptionId:)`. */
  function UnsubscribeFrame(id: string): (f: ClientFrame)
    ensures f.command == Unsubscribe && f.body == ""
    ensures f.headers.Keys == {"id"} && f.headers["id"] == SubscriptionId(id)
  {
    ClientFrame(Unsubscribe, map["id" := SubscriptionId(id)], "")
  }

  /** `ack(messageId:)`: the message is acknowledged under the `id` header. */
  function AckFrame(messageId: string): (f: ClientFrame)
    ensures f.command == Ack && f.body == ""
    ensures f.headers.Keys == {"id"} && f.headers["id"] == SubscriptionId(messageId)
  {
    ClientFrame(Ack, map["id" := SubscriptionId(messageId)], "")
  }

  /** `disconnect(receipt:)`. */
  function DisconnectFrame(receipt: string): (f: ClientFrame)
    ensures f.command == Disconnect && f.body == ""
    ensures f.headers.Keys == {"receipt"} && f.headers["receipt"] == Header.Receipt(receipt)
  {
    ClientFrame(Disconnect, map["receipt" := Header.Receipt(receipt)], "")
  }

  /** The numbers `arc4random_uniform(1000)` may draw. */
  predicate IsDraw(draw: int) { 0 <= draw < 1000 }

  const ReceiptPrefix: string := "receipt-"
  const SubscriptionIdPrefix: string := "subscription-id-"

  /** `generateReceipt()` for the number drawn. */
  function GenerateReceipt(draw: int): (r: string)
    requires IsDraw(draw)
    ensures |r| > |ReceiptPrefix| && r[..|ReceiptPrefix|] == ReceiptPrefix
    ensures ParseInt(r[|ReceiptPrefix|..]) == Some(draw)
  {
    ParseFormatInt(draw);
    ReceiptPrefix + FormatInt(draw)
  }

  /** `generateSubscriptionId()` for the number drawn. */
  function GenerateSubscriptionId(draw: int): (r: string)
    requires IsDraw(draw)
    ensures |r| > |SubscriptionIdPrefix| && r[..|SubscriptionIdPrefix|] == SubscriptionIdPrefix
    ensures ParseInt(r[|SubscriptionIdPrefix|..]) == Some(draw)
  {
    ParseFormatInt(draw);
    SubscriptionIdPrefix + FormatInt(draw)
  }

  /** Two receipts are the same exactly when the numbers drawn are. */
  lemma ReceiptsDistinct(a: int, b: int)
    requires IsDraw(a) && IsDraw(b)
    ensures GenerateReceipt(a) == GenerateReceipt(b) <==> a == b
  {
    var ra, rb := GenerateReceipt(a), GenerateReceipt(b);
    if ra == rb {
      assert ra[|ReceiptPrefix|..] == rb[|ReceiptPrefix|..];
    }
  }

  /** Two subscription ids are the same exactly when the numbers drawn are. */
  lemma SubscriptionIdsDistinct(a: int, b: int)
    requires IsDraw(a) && IsDraw(b)
    ensures GenerateSubscriptionId(a) == GenerateSubscriptionId(b) <==> a == b
  {
    var ra, rb := GenerateSubscriptionId(a), GenerateSubscriptionId(b);
    if ra == rb {
      assert ra[|SubscriptionIdPrefix|..] == rb[|SubscriptionIdPrefix|..];
    }
  }

  /** `generateHeartBeat()`: an empty frame, two newlines. */
  const HeartBeatText: string := "\n\n"

  /** A heart-beat reads as text whose first line is empty, the test the
      client applies to inbound text before parsing it. */
  lemma HeartBeatHasEmptyFirstLine()
    ensures Split(HeartBeatText, '\n')[0] == ""
  {
    assert HeartBeatText == [] + ['\n'] + "\n";
    SplitAppend([], '\n', "\n");
  }
}
