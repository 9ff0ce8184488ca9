/**
 * The consumer service's `RabbitMQConsumer`: the retrying connect, the
 * per-message callback with its acknowledgement rules and counters, and
 * the two ways of stopping. Broker answers and processing results are
 * parameters.
 */
module Consumer {
  import opened Wrappers
  import opened BrokerClient

  const MaxRetries: nat := 10

  /**
   * How one connection attempt ends: fully set up, refused before a
   * connection object exists, failing when the channel is opened, or failing
   * in the queue declaration or QoS setting after the channel exists. `lost`
   * says whether the failure came from the connection going down, which
   * leaves the stored connection reporting `is_closed`.
   */
  datatype AttemptResult = Connected | ConnectRefused | ChannelFailed(lost: bool) | SetupFailed(lost: bool)

  /** The `connection` and `channel` attributes, as far as they matter here. */
  datatype Link = Link(connection: Connection, hasChannel: bool)

  /** What one attempt leaves in the attributes: each is assigned as soon as its call returns. */
  function AfterAttempt(link: Link, result: AttemptResult): Link
  {
    match result
    case ConnectRefused => link
    case ChannelFailed(lost) => Link(if lost then Closed else Open, link.hasChannel)
    case SetupFailed(lost) => Link(if lost then Closed else Open, true)
    case Connected => Link(Open, true)
  }

  /** The attributes after the first `n` attempts. */
  function AfterAttempts(link: Link, attempt: nat -> AttemptResult, n: nat): Link
  {
    if n == 0 then link else AfterAttempt(AfterAttempts(link, attempt, n - 1), attempt(n - 1))
  }

  /** When every attempt is refused, the attributes keep their values. */
  lemma {:induction false} RefusedAttemptsChangeNothing(link: Link, attempt: nat -> AttemptResult, n: nat)
    requires forall i :: 0 <= i < n ==> attempt(i) == ConnectRefused
    ensures AfterAttempts(link, attempt, n) == link
  {
    if n > 0 {
      RefusedAttemptsChangeNothing(link, attempt, n - 1);
    }
  }

  /**
   * Once any attempt got as far as a connection object, the consumer holds
   * a connection afterwards, even when `connect` gives up; it may report
   * `is_closed` when a later failure came from losing it.
   */
  /**
   * The last attempt that got a connection object decides its state: open
   * unless that attempt failed because the connection went down.
   */
  lemma {:induction false} LastAttemptDecidesConnection(link: Link, attempt: nat -> AttemptResult, n: nat, i: nat)
    requires i < n && attempt(i) != ConnectRefused
    requires forall j :: i < j < n ==> attempt(j) == ConnectRefused
    ensures AfterAttempts(link, attempt, n).connection
      == if attempt(i).Connected? || !attempt(i).lost then Open else Closed
  {
    if i < n - 1 {
      LastAttemptDecidesConnection(link, attempt, n - 1, i);
    }
  }

  lemma {:induction false} PartialAttemptKeepsConnection(link: Link, attempt: nat -> AttemptResult, n: nat, i: nat)
    requires i < n && attempt(i) != ConnectRefused
    ensures AfterAttempts(link, attempt, n).connection != NoConnection
  {
    if i < n - 1 {
      PartialAttemptKeepsConnection(link, attempt, n - 1, i);
    }
  }

  /** What the consumer receives: bytes that are not UTF-8, text that is not JSON, JSON that is not an object, or an object. */
  datatype Body = Undecodable | MalformedJson | NonObjectJson | JsonObject

  /** A call on the delivery channel. */
  datatype ChannelCall = Ack | Nack(requeue: bool)

  /**
   * The call the callback makes first: an ack only for an object that was
   * processed, a nack without requeue only for text that is not JSON
   * (`json.JSONDecodeError`), and a nack with requeue otherwise.
   */
  function FirstCall(body: Body, processOk: bool): ChannelCall
  {
    match body
    case MalformedJson => Nack(false)
    case JsonObject => if processOk then Ack else Nack(true)
    case Undecodable => Nack(true)
    case NonObjectJson => Nack(true)
  }

  /** A message is dropped for good only when it is not JSON; every other failure goes back to the queue. */
  lemma DropsOnlyMalformed(body: Body, processOk: bool)
    ensures FirstCall(body, processOk) == Nack(false) <==> body == MalformedJson
    ensures FirstCall(body, processOk) == Ack <==> body == JsonObject && processOk
  {
  }

  class RabbitMQConsumer {
    const port: int
    var connection: Connection
    var hasChannel: bool
    var consuming: bool
    var messagesProcessed: nat
    var messagesFailed: nat
    var lastMessageTime: Option<int>
    var shutdownRequested: bool

    /** `__init__` (lines 18-58). */
    constructor(portSetting: string)
      ensures port == ParsePort(portSetting)
      ensures connection == NoConnection && !hasChannel && !consuming && !shutdownRequested
      ensures messagesProcessed == 0 && messagesFailed == 0 && lastMessageTime == None
    {
      port := ParsePort(portSetting);
      connection := NoConnection;
      hasChannel := false;
      consuming := false;
      messagesProcessed := 0;
      messagesFailed := 0;
      lastMessageTime := None;
      shutdownRequested := false;
    }

    /**
     * `connect` (lines 61-102): up to ten attempts, pausing between failed
     * ones, stopping at the first that sets everything up.
     */
    method Connect(attempt: nat -> AttemptResult) returns (ok: bool, attempts: nat, pauses: nat)
      modifies this
      ensures 1 <= attempts <= MaxRetries
      ensures forall i :: 0 <= i < attempts - 1 ==> attempt(i) != Connected
      ensures ok <==> attempt(attempts - 1) == Connected
      ensures !ok ==> attempts == MaxRetries
      ensures ok <==> exists i :: 0 <= i < MaxRetries && attempt(i) == Connected
      ensures pauses == attempts - 1
      ensures Link(connection, hasChannel) == AfterAttempts(Link(old(connection), old(hasChannel)), attempt, attempts)
      ensures ok ==> connection == Open && hasChannel
      ensures consuming == old(consuming) && shutdownRequested == old(shutdownRequested)
      ensures messagesProcessed == old(messagesProcessed) && messagesFailed == old(messagesFailed)
      ensures lastMessageTime == old(lastMessageTime)
    {
      ghost var start := Link(connection, hasChannel);
      ok, attempts, pauses := false, 0, 0;
      var done := false;
      while !done
        invariant 0 <= attempts <= MaxRetries
        invariant done ==> attempts >= 1
        invariant !done ==> attempts < MaxRetries && pauses == attempts && !ok
        invariant done ==> pauses == attempts - 1
        invariant forall i :: 0 <= i < attempts - (if done then 1 else 0) ==> attempt(i) != Connected
        invariant done ==> (ok <==> attempt(attempts - 1) == Connected)
        invariant done && !ok ==> attempts == MaxRetries
        invariant Link(connection, hasChannel) == AfterAttempts(start, attempt, attempts)
        invariant consuming == old(consuming) && shutdownRequested == old(shutdownRequested)
        invariant messagesProcessed == old(messagesProcessed) && messagesFailed == old(messagesFailed)
        invariant lastMessageTime == old(lastMessageTime)
        decreases MaxRetries - attempts
      {
        var result := attempt(attempts);
        match result {
          case ConnectRefused =>
          case ChannelFailed(lost) =>
            connection := if lost then Closed else Open;
          case SetupFailed(lost) =>
            connection, hasChannel := if lost then Closed else Open, true;
          case Connected =>
            connection, hasChannel := Open, true;
        }
        attempts := attempts + 1;
        if result == Connected {
          ok, done := true, true;
        } else if attempts < MaxRetries {
          pauses := pauses + 1;
        } else {
          done := true;
        }
      }
    }

    /**
     * `message_callback` (lines 139-177). `processOk` is what
     * `process_message` returns; `channelOk(k)` says whether the `k`-th
     * channel call of this delivery returns rather than raises. A raising
     * ack or requeueing nack inside the `try` leads to one more requeueing
     * nack; a call that raises in a handler escapes the callback.
     */
    method MessageCallback(body: Body, processOk: bool, channelOk: nat -> bool, now: int)
      returns (calls: seq<ChannelCall>, escaped: bool)
      modifies this
      ensures 1 <= |calls| <= 2 && calls[0] == FirstCall(body, processOk)
      ensures |calls| == 2 <==> body == JsonObject && !channelOk(0)
      ensures |calls| == 2 ==> calls[1] == Nack(true)
      ensures escaped <==> !channelOk(|calls| - 1)
      ensures messagesProcessed == old(messagesProcessed) + (if calls == [Ack] && !escaped then 1 else 0)
      ensures messagesFailed == old(messagesFailed) + (if calls != [Ack] && !escaped then 1 else 0)
      ensures lastMessageTime == if calls == [Ack] && !escaped then Some(now) else old(lastMessageTime)
      ensures connection == old(connection) && hasChannel == old(hasChannel)
      ensures consuming == old(consuming) && shutdownRequested == old(shutdownRequested)
    {
      match body
      case MalformedJson =>
        calls := [Nack(false)];
        escaped := !channelOk(0);
        if !escaped {
          messagesFailed := messagesFailed + 1;
        }
      case Undecodable =>
        calls := [Nack(true)];
        escaped := !channelOk(0);
        if !escaped {
          messagesFailed := messagesFailed + 1;
        }
      case NonObjectJson =>
        calls := [Nack(true)];
        escaped := !channelOk(0);
        if !escaped {
          messagesFailed := messagesFailed + 1;
        }
      case JsonObject =>
        if processOk && channelOk(0) {
          calls := [Ack];
          messagesProcessed := messagesProcessed + 1;
          lastMessageTime := Some(now);
          escaped := false;
        } else if channelOk(0) {
          calls := [Nack(true)];
          messagesFailed := messagesFailed + 1;
          escaped := false;
        } else {
          calls := [if processOk then Ack else Nack(true), Nack(true)];
          escaped := !channelOk(1);
          if !escaped {
            messagesFailed := messagesFailed + 1;
          }
        }
    }

    /**
     * `stop_consuming` (lines 212-225): always clears `consuming`; asks the
     * channel to stop when there is one (a failure there is ignored) and
     * closes a connection that is still open. `closeOk` says whether that
     * close returns; when it raises the error is logged and the connection
     * stays as it was.
     */
    method StopConsuming(closeOk: bool) returns (stopIssued: bool, closeIssued: bool)
      modifies this
      ensures !consuming
      ensures stopIssued == old(hasChannel)
      ensures closeIssued == (old(connection) == Open)
      ensures connection == if closeIssued && closeOk then Closed else old(connection)
      ensures hasChannel == old(hasChannel) && shutdownRequested == old(shutdownRequested)
      ensures messagesProcessed == old(messagesProcessed) && messagesFailed == old(messagesFailed)
      ensures lastMessageTime == old(lastMessageTime)
    {
      consuming := false;
      stopIssued := hasChannel;
      closeIssued := connection == Open;
      if closeIssued && closeOk {
        connection := Closed;
      }
    }

    /**
     * `request_shutdown` (lines 253-258): the flag is set first, so it holds
     * even when the channel's `stop_consuming` raises out of the method.
     */
    method RequestShutdown(stopOk: bool) returns (stopIssued: bool, raised: bool)
      modifies this
      ensures shutdownRequested
      ensures stopIssued == hasChannel
      ensures raised <==> hasChannel && !stopOk
      ensures connection == old(connection) && hasChannel == old(hasChannel) && consuming == old(consuming)
      ensures messagesProcessed == old(messagesProcessed) && messagesFailed == old(messagesFailed)
      ensures lastMessageTime == old(lastMessageTime)
    {
      shutdownRequested := true;
      stopIssued := hasChannel;
      raised := hasChannel && !stopOk;
    }
  }

  /**
   * A failed `connect` can still leave an open connection and a channel
   * behind: the readiness probe then reports the consumer connected.
   */
  lemma FailedConnectCanLeaveLinkOpen()
    ensures var attempt := (i: nat) => if i == MaxRetries - 1 then SetupFailed(false) else ConnectRefused;
      && (forall i :: 0 <= i < MaxRetries ==> attempt(i) != Connected)
      && AfterAttempts(Link(NoConnection, false), attempt, MaxRetries) == Link(Open, true)
  {
    var attempt := (i: nat) => if i == MaxRetries - 1 then SetupFailed(false) else ConnectRefused;
    RefusedAttemptsChangeNothing(Link(NoConnection, false), attempt, MaxRetries - 1);
  }
}
