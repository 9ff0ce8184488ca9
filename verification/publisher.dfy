/**
 * The publisher service: the `RabbitMQPublisher` connection state machine,
 * its message counter and batch loop, and the `/publish/batch` handler's
 * choice of what to publish. Broker answers are parameters.
 */
module Publisher {
  import opened Wrappers
  import opened PyText
  import opened BrokerClient

  /**
   * What `ensure_connection` finds: the connection healthy, already reporting
   * `is_closed`, or `process_data_events` raising (after which pika may or
   * may not have marked the connection closed).
   */
  datatype Probe = Healthy | Dropped | ProbeRaised(markedClosed: bool)

  /** The body of one published message; the timestamp and container id are left out. */
  datatype Envelope = Envelope(id: nat, data: string)

  /**
   * Whether `ensure_connection` reports a usable connection: an open one
   * is kept when the probe passes, and also when it raised without closing
   * the connection, since `connect` then returns early; otherwise the answer
   * is that of a fresh connection attempt.
   */
  predicate Usable(connection: Connection, probe: Probe, attemptOk: bool)
  {
    KeepsConnection(connection, probe) || attemptOk
  }

  predicate KeepsConnection(connection: Connection, probe: Probe)
  {
    connection == Open && (probe.Healthy? || probe == ProbeRaised(false))
  }

  /** How many flags are set. */
  function Count(flags: seq<bool>): (n: nat)
    ensures n <= |flags|
  {
    if flags == [] then 0 else Count(flags[..|flags| - 1]) + (if flags[|flags| - 1] then 1 else 0)
  }

  /** The envelopes of the delivered messages, numbered on from `start` in delivery order. */
  function Numbered(messages: seq<string>, delivered: seq<bool>, start: nat): seq<Envelope>
    requires |delivered| == |messages|
  {
    if messages == [] then []
    else
      var n := |messages| - 1;
      Numbered(messages[..n], delivered[..n], start) +
        (if delivered[n] then [Envelope(start + Count(delivered[..n]), messages[n])] else [])
  }

  lemma NumberedStep(messages: seq<string>, delivered: seq<bool>, m: string, d: bool, start: nat)
    requires |delivered| == |messages|
    ensures Numbered(messages + [m], delivered + [d], start)
         == Numbered(messages, delivered, start) + (if d then [Envelope(start + Count(delivered), m)] else [])
    ensures Count(delivered + [d]) == Count(delivered) + (if d then 1 else 0)
  {
    assert (messages + [m])[..|messages|] == messages;
    assert (delivered + [d])[..|delivered|] == delivered;
  }

  /**
   * One envelope per delivered message, with consecutive ids from `start`,
   * each carrying a message of the batch in order.
   */
  lemma {:induction false} NumberedIsConsecutive(messages: seq<string>, delivered: seq<bool>, start: nat)
    requires |delivered| == |messages|
    ensures var sent := Numbered(messages, delivered, start);
      && |sent| == Count(delivered)
      && (forall k :: 0 <= k < |sent| ==> sent[k].id == start + k)
      && (forall k :: 0 <= k < |sent| ==> sent[k].data in messages)
    decreases |messages|
  {
    if messages != [] {
      var n := |messages| - 1;
      NumberedIsConsecutive(messages[..n], delivered[..n], start);
      var sent := Numbered(messages, delivered, start);
      var init := Numbered(messages[..n], delivered[..n], start);
      forall k | 0 <= k < |sent| ensures sent[k].data in messages {
        if k < |init| {
          assert sent[k] == init[k];
          assert init[k].data in messages[..n];
        } else {
          assert sent[k].data == messages[n];
        }
      }
    }
  }

  /** The number of `time.sleep(delay)` calls a batch makes: between messages, never after the last. */
  function Pauses(count: nat, delay: real): nat
  {
    if delay > 0.0 && count > 0 then count - 1 else 0
  }

  class RabbitMQPublisher {
    const port: int
    var connection: Connection
    var hasChannel: bool
    var messageCount: nat

    /** The channel is set exactly when a connection object is held. */
    ghost predicate Valid()
      reads this
    {
      connection != NoConnection <==> hasChannel
    }

    /** `__init__` (lines 46-72): the port from `RABBITMQ_PORT`, no connection, no messages yet. */
    constructor(portSetting: string)
      ensures Valid()
      ensures port == ParsePort(portSetting)
      ensures connection == NoConnection && messageCount == 0
    {
      port := ParsePort(portSetting);
      connection := NoConnection;
      hasChannel := false;
      messageCount := 0;
    }

    /**
     * `connect` (lines 74-107): an open connection is kept; otherwise a new
     * connection, channel and queue declaration are attempted, and any
     * failure leaves neither a connection nor a channel.
     */
    method Connect(attemptOk: bool) returns (ok: bool)
      requires Valid()
      modifies this
      ensures Valid()
      ensures old(connection) == Open ==> ok && connection == Open
      ensures old(connection) != Open ==> ok == attemptOk
      ensures connection == (if ok then Open else NoConnection)
      ensures messageCount == old(messageCount)
    {
      if connection == Open {
        return true;
      }
      if attemptOk {
        connection, hasChannel := Open, true;
        ok := true;
      } else {
        connection, hasChannel := NoConnection, false;
        ok := false;
      }
    }

    /** `ensure_connection` (lines 109-121). */
    method EnsureConnection(probe: Probe, attemptOk: bool) returns (ok: bool)
      requires Valid()
      modifies this
      ensures Valid()
      ensures ok == Usable(old(connection), probe, attemptOk)
      ensures connection == (if ok then Open else NoConnection)
      ensures messageCount == old(messageCount)
    {
      if connection == Open && probe.Healthy? {
        return true;
      }
      if connection == Open && (probe.Dropped? || probe == ProbeRaised(true)) {
        connection := Closed;
      }
      ok := Connect(attemptOk);
    }

    /**
     * `publish_message` (lines 123-165): the message carries the number of
     * messages published before it; the counter moves only on success, and
     * any failure leaves the publisher disconnected, so the next call
     * reconnects.
     */
    method PublishMessage(data: string, probe: Probe, attemptOk: bool, publishOk: bool)
      returns (ok: bool, sent: Option<Envelope>)
      requires Valid()
      modifies this
      ensures Valid()
      ensures ok <==> Usable(old(connection), probe, attemptOk) && publishOk
      ensures ok ==> sent == Some(Envelope(old(messageCount), data)) && messageCount == old(messageCount) + 1
      ensures !ok ==> sent == None && messageCount == old(messageCount)
      ensures connection == (if ok then Open else NoConnection)
    {
      var connected := EnsureConnection(probe, attemptOk);
      if !connected {
        return false, None;
      }
      var envelope := Envelope(messageCount, data);
      if publishOk {
        messageCount := messageCount + 1;
        return true, Some(envelope);
      }
      connection, hasChannel := NoConnection, false;
      return false, None;
    }

    /**
     * `publish_batch` (lines 184-199): every message is tried once, in order;
     * `delivered` records which went out. Message `k` goes out exactly when
     * the connection the previous message left is usable and its publish
     * call returns; that connection is the one held before the batch for
     * the first message, open after a delivery and absent after a failure.
     */
    method PublishBatch(messages: seq<string>, delay: real,
                        probe: nat -> Probe, attemptOk: nat -> bool, publishOk: nat -> bool)
      returns (successful: nat, failed: nat, pauses: nat, delivered: seq<bool>, sent: seq<Envelope>)
      requires Valid()
      modifies this
      ensures Valid()
      ensures |delivered| == |messages|
      ensures successful == Count(delivered) && successful + failed == |messages|
      ensures sent == Numbered(messages, delivered, old(messageCount))
      ensures messageCount == old(messageCount) + successful
      ensures pauses == Pauses(|messages|, delay)
      ensures Delivery(old(connection), delivered, probe, attemptOk, publishOk)
      ensures connection == ConnAfter(old(connection), delivered, |delivered|)
      ensures Settled(delivered, attemptOk, publishOk)
    {
      ghost var start, first := messageCount, connection;
      successful, failed, pauses, delivered, sent := 0, 0, 0, [], [];
      for i := 0 to |messages|
        invariant Valid()
        invariant Tally(messages, i, start, successful, failed, delivered, sent)
        invariant messageCount == start + successful
        invariant pauses == (if delay <= 0.0 then 0 else if i == |messages| && i > 0 then i - 1 else i)
        invariant Replayed(first, delivered, connection, probe, attemptOk, publishOk)
      {
        ghost var before := connection;
        var ok, envelope := PublishMessage(messages[i], probe(i), attemptOk(i), publishOk(i));
        TallyStep(messages, i, start, successful, failed, delivered, sent, ok, envelope);
        ReplayedStep(first, delivered, before, ok, connection, probe, attemptOk, publishOk);
        if ok {
          successful := successful + 1;
          sent := sent + [envelope.value];
        } else {
          failed := failed + 1;
        }
        delivered := delivered + [ok];
        if delay > 0.0 && i < |messages| - 1 {
          pauses := pauses + 1;
        }
      }
      assert messages[..|messages|] == messages;
      DeliveryIsSettled(first, delivered, probe, attemptOk, publishOk);
    }
  }

  /**
   * The connection held before message `k` of a batch: the one held before
   * the batch for the first message; after that, open when the previous
   * message went out and absent when it did not.
   */
  function ConnAfter(first: Connection, delivered: seq<bool>, k: nat): Connection
    requires k <= |delivered|
  {
    if k == 0 then first else if delivered[k - 1] then Open else NoConnection
  }

  /**
   * The batch so far replays `publish_message` from the connection held
   * before it, and `connection` is what the last message left.
   */
  predicate Replayed(first: Connection, delivered: seq<bool>, connection: Connection,
                     probe: nat -> Probe, attemptOk: nat -> bool, publishOk: nat -> bool)
  {
    Delivery(first, delivered, probe, attemptOk, publishOk) && connection == ConnAfter(first, delivered, |delivered|)
  }

  lemma ReplayedStep(first: Connection, delivered: seq<bool>, before: Connection, ok: bool, after: Connection,
                     probe: nat -> Probe, attemptOk: nat -> bool, publishOk: nat -> bool)
    requires Replayed(first, delivered, before, probe, attemptOk, publishOk)
    requires var n := |delivered|; ok <==> Usable(before, probe(n), attemptOk(n)) && publishOk(n)
    requires after == if ok then Open else NoConnection
    ensures Replayed(first, delivered + [ok], after, probe, attemptOk, publishOk)
  {
    DeliveryStep(first, delivered, ok, probe, attemptOk, publishOk);
    ConnAfterLast(first, delivered, ok);
  }

  /** Each outcome of a batch is what `publish_message` gives from the connection the previous one left. */
  predicate Delivery(first: Connection, delivered: seq<bool>,
                     probe: nat -> Probe, attemptOk: nat -> bool, publishOk: nat -> bool)
  {
    forall k {:trigger ConnAfter(first, delivered, k)} :: 0 <= k < |delivered| ==>
      (delivered[k] <==> Usable(ConnAfter(first, delivered, k), probe(k), attemptOk(k)) && publishOk(k))
  }

  lemma DeliveryStep(first: Connection, delivered: seq<bool>, ok: bool,
                     probe: nat -> Probe, attemptOk: nat -> bool, publishOk: nat -> bool)
    requires Delivery(first, delivered, probe, attemptOk, publishOk)
    requires var n := |delivered|; ok <==> Usable(ConnAfter(first, delivered, n), probe(n), attemptOk(n)) && publishOk(n)
    ensures Delivery(first, delivered + [ok], probe, attemptOk, publishOk)
  {
    var d := delivered + [ok];
    forall k | 0 <= k < |d|
      ensures d[k] <==> Usable(ConnAfter(first, d, k), probe(k), attemptOk(k)) && publishOk(k)
    {
      ConnAfterExtend(first, delivered, ok, k);
      if k < |delivered| {
        assert d[k] == delivered[k];
      }
    }
  }

  /** After a message, the publisher is connected exactly when it went out. */
  lemma ConnAfterLast(first: Connection, delivered: seq<bool>, ok: bool)
    ensures ConnAfter(first, delivered + [ok], |delivered| + 1) == if ok then Open else NoConnection
  {
    assert (delivered + [ok])[|delivered|] == ok;
  }

  /** Recording an outcome does not change the connections before the earlier messages. */
  lemma ConnAfterExtend(first: Connection, delivered: seq<bool>, ok: bool, k: nat)
    requires k <= |delivered|
    ensures ConnAfter(first, delivered + [ok], k) == ConnAfter(first, delivered, k)
  {
    if k > 0 {
      assert (delivered + [ok])[k - 1] == delivered[k - 1];
    }
  }

  /**
   * The exact outcomes bound what the broker's answers alone decide: a
   * delivery needs a returning publish, and a returning publish after a
   * connection attempt that would succeed always delivers.
   */
  lemma DeliveryIsSettled(first: Connection, delivered: seq<bool>,
                          probe: nat -> Probe, attemptOk: nat -> bool, publishOk: nat -> bool)
    requires Delivery(first, delivered, probe, attemptOk, publishOk)
    ensures Settled(delivered, attemptOk, publishOk)
  {
    forall k | 0 <= k < |delivered|
      ensures (delivered[k] ==> publishOk(k)) && (attemptOk(k) && publishOk(k) ==> delivered[k])
    {
      assert delivered[k] <==> Usable(ConnAfter(first, delivered, k), probe(k), attemptOk(k)) && publishOk(k);
    }
  }

  /**
   * The batch's bookkeeping after its first `i` messages: one outcome per
   * message, the counters agree with the outcomes, and `sent` holds the
   * numbered envelopes of the delivered ones.
   */
  predicate Tally(messages: seq<string>, i: nat, start: nat, successful: nat, failed: nat,
                  delivered: seq<bool>, sent: seq<Envelope>)
  {
    && i <= |messages| && |delivered| == i
    && successful == Count(delivered) && successful + failed == i
    && sent == Numbered(messages[..i], delivered, start)
  }

  lemma TallyStep(messages: seq<string>, i: nat, start: nat, successful: nat, failed: nat,
                  delivered: seq<bool>, sent: seq<Envelope>, ok: bool, envelope: Option<Envelope>)
    requires i < |messages| && Tally(messages, i, start, successful, failed, delivered, sent)
    requires ok ==> envelope == Some(Envelope(start + successful, messages[i]))
    ensures ok ==> Tally(messages, i + 1, start, successful + 1, failed, delivered + [ok], sent + [envelope.value])
    ensures !ok ==> Tally(messages, i + 1, start, successful, failed + 1, delivered + [ok], sent)
  {
    RecordStep(messages, i, start, delivered, sent, ok, envelope);
  }

  /**
   * Each recorded outcome agrees with the broker's answers: a delivery
   * needs a publish call that returns, and a publish call that returns
   * after a connection attempt that would succeed always delivers.
   */
  predicate Settled(delivered: seq<bool>, attemptOk: nat -> bool, publishOk: nat -> bool)
  {
    forall k :: 0 <= k < |delivered| ==>
      (delivered[k] ==> publishOk(k)) && (attemptOk(k) && publishOk(k) ==> delivered[k])
  }

  lemma RecordStep(messages: seq<string>, i: nat, start: nat, delivered: seq<bool>, sent: seq<Envelope>,
                    ok: bool, envelope: Option<Envelope>)
    requires i < |messages| && |delivered| == i
    requires sent == Numbered(messages[..i], delivered, start)
    requires ok ==> envelope == Some(Envelope(start + Count(delivered), messages[i]))
    ensures Count(delivered + [ok]) == Count(delivered) + (if ok then 1 else 0)
    ensures ok ==> Numbered(messages[..i + 1], delivered + [ok], start) == sent + [envelope.value]
    ensures !ok ==> Numbered(messages[..i + 1], delivered + [ok], start) == sent
  {
    NumberedStep(messages[..i], delivered, messages[i], ok, start);
    assert messages[..i + 1] == messages[..i] + [messages[i]];
  }

  /**
   * The JSON body of a `/publish/batch` request: absent or falsy (`None`,
   * `{}`, `[]`, ...), some other truthy non-object value, or an object with
   * the fields it may carry (`otherKeys` for any unrelated key).
   */
  datatype BatchBody =
    | Falsy
    | NotObject
    | Object(messages: Option<seq<string>>, count: Option<int>, delay: Option<real>, otherKeys: bool)

  /** What the handler does with a body: a 400 or 500 answer, or a batch to publish. */
  datatype BatchPlan = NoJsonData | NoMessages | HandlerError | Publish(messages: seq<string>, delay: real)

  const DefaultDelay: real := 0.5

  /** `f"Test message {i+1}"`. */
  function TestMessage(i: nat): string
  {
    "Test message " + Dec(i + 1)
  }

  /** `[f"Test message {i+1}" for i in range(count)]`. */
  function TestMessages(count: int): (ms: seq<string>)
    ensures |ms| == if count > 0 then count else 0
    ensures forall i :: 0 <= i < |ms| ==> ms[i] == TestMessage(i)
  {
    if count <= 0 then [] else TestMessages(count - 1) + [TestMessage(count - 1)]
  }

  /** Synthesized messages are pairwise distinct. */
  lemma TestMessagesDistinct(count: int)
    ensures var ms := TestMessages(count);
      forall i, j :: 0 <= i < j < |ms| ==> ms[i] != ms[j]
  {
    var ms := TestMessages(count);
    forall i, j | 0 <= i < j < |ms|
      ensures ms[i] != ms[j]
    {
      var p := "Test message ";
      if ms[i] == ms[j] {
        assert ms[i][|p|..] == Dec(i + 1);
        assert ms[j][|p|..] == Dec(j + 1);
        DecInjective(i + 1, j + 1);
      }
    }
  }

  /** Lines 286-301: which messages the handler publishes, and with what delay. */
  function PlanBatch(body: BatchBody): (plan: BatchPlan)
    ensures plan.Publish? ==> |plan.messages| > 0
    ensures body.Falsy? ==> plan == NoJsonData
    ensures body.NotObject? ==> plan == HandlerError
    ensures body.Object? && body.messages.Some? && body.messages.value != [] ==>
      plan == Publish(body.messages.value, body.delay.GetOr(DefaultDelay))
  {
    match body
    case Falsy => NoJsonData
    case NotObject => HandlerError
    case Object(given, count, delay, otherKeys) =>
      if given.None? && count.None? && delay.None? && !otherKeys then NoJsonData
      else
        var messages := given.GetOr([]);
        var count := count.GetOr(|messages|);
        var messages := if messages == [] && count > 0 then TestMessages(count) else messages;
        if messages == [] then NoMessages
        else Publish(messages, delay.GetOr(DefaultDelay))
  }

  /**
   * Without messages (the field absent or an empty list) the handler
   * publishes `count` test messages, and
   * refuses the request when `count` is not positive.
   */
  lemma PlanSynthesizes(given: Option<seq<string>>, count: Option<int>, delay: Option<real>, otherKeys: bool)
    requires given == None || given == Some([])
    requires given.None? ==> count.Some? || delay.Some? || otherKeys
    ensures var plan := PlanBatch(Object(given, count, delay, otherKeys));
      && (count.Some? && count.value > 0 ==> plan == Publish(TestMessages(count.value), delay.GetOr(DefaultDelay)))
      && (count.None? || count.value <= 0 ==> plan == NoMessages)
  {
  }

  /** A non-empty list of messages is published as given, whatever `count` says. */
  lemma PlanKeepsGivenMessages(messages: seq<string>, count: Option<int>, delay: Option<real>, otherKeys: bool)
    requires messages != []
    ensures PlanBatch(Object(Some(messages), count, delay, otherKeys)).messages == messages
  {
  }

  /** An empty object is falsy: it is refused as carrying no JSON data. */
  lemma PlanRefusesEmptyObject()
    ensures PlanBatch(Object(None, None, None, false)) == NoJsonData
  {
  }
}
