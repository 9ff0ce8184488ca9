/**
 * What the publisher and the consumer share as clients of the broker: the
 * rule that turns the `RABBITMQ_PORT` setting into a port number, and the
 * three states their `connection` attribute can be in.
 */
module BrokerClient {
  import opened Wrappers
  import opened PyText

  const DefaultPort: int := 5672
  const TcpScheme: string := "tcp://"

  /** `connection` is `None`, an open connection, or one whose `is_closed` is true. */
  datatype Connection = NoConnection | Open | Closed

  /**
   * The search for `:(\d+)$`: the digits after the last colon when the text
   * ends in a colon and one or more digits; `$` also matches just before a
   * single trailing newline.
   */
  function TrailingPortDigits(s: string): (r: Option<string>)
    ensures r.Some? ==> |r.value| > 0 && AllDigits(r.value)
  {
    var t := if |s| > 0 && s[|s| - 1] == '\n' then s[..|s| - 1] else s;
    var d := LastSegment(t, ':');
    if 0 < |d| < |t| && AllDigits(d) then Some(d) else None
  }

  /**
   * The port the client connects to for a `RABBITMQ_PORT` value: in the
   * `tcp://host:port` form the trailing digits, otherwise the value read as
   * an integer; 5672 when neither applies.
   */
  function ParsePort(env: string): (port: int)
    ensures IsPrefix(TcpScheme, env) ==> port >= 0
    ensures IsPrefix(TcpScheme, env) && TrailingPortDigits(env).None? ==> port == DefaultPort
    ensures !IsPrefix(TcpScheme, env) && PyInt(env).None? ==> port == DefaultPort
  {
    if IsPrefix(TcpScheme, env) then
      match TrailingPortDigits(env)
      case Some(digits) => DigitsValue(digits)
      case None => DefaultPort
    else
      match PyInt(env)
      case Some(p) => p
      case None => DefaultPort
  }

  /** The Kubernetes service form `tcp://<host>:<port>` yields the port, whatever the host. */
  lemma ParsePortTcpRoundTrip(host: string, n: nat)
    ensures ParsePort(TcpScheme + host + ":" + Dec(n)) == n
  {
    var s := TcpScheme + host + ":" + Dec(n);
    assert s[..|TcpScheme|] == TcpScheme;
    assert s[|s| - 1] == Dec(n)[|Dec(n)| - 1];
    assert IsDigit(s[|s| - 1]);
    DigitsExclude(Dec(n), ':');
    assert s == (TcpScheme + host) + [':'] + Dec(n);
    LastSegmentAfterSeparator(TcpScheme + host, ':', Dec(n));
    assert TrailingPortDigits(s) == Some(Dec(n));
    DecRoundTrip(n);
  }

  /** A plain decimal setting is taken as it is. */
  lemma ParsePortPlainRoundTrip(n: nat)
    ensures ParsePort(Dec(n)) == n
  {
    var s := Dec(n);
    assert IsDigit(s[0]);
    assert s[0] != TcpScheme[0];
    PyIntOfDec(n);
  }

  /** A signed plain setting is accepted too, so a negative port gets through. */
  lemma ParsePortAcceptsNegative(digits: string)
    requires |digits| > 0 && AllDigits(digits)
    ensures ParsePort("-" + digits) == -(DigitsValue(digits) as int)
  {
    var s := "-" + digits;
    assert s[0] != TcpScheme[0];
    assert s[1..] == digits;
    PyIntOfNegated(s);
  }
}
