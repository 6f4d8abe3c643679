/**
 * The bounded redirect resolver `ping`.  The network is an oracle: a parser
 * from strings to URIs (None when parsing fails) and a probe that classifies
 * the answer to a request by the status classes of section 15 of RFC 9110.
 */
module Resolver {
  import opened Wrappers
  import opened Ruby
  import opened Urls

  /** The answer to a request, by status class; `Raised` when the request itself raises. */
  datatype Response =
    | Success                            // 2xx
    | ClientError                        // 4xx
    | Redirect(location: Option<string>) // 3xx, with its Location header (section 10.2.2 of RFC 9110)
    | Other                              // 1xx, 5xx and anything else
    | Raised                             // connection failure, timeout, TLS error, ...

  datatype Net = Net(parse: string -> Option<Uri>, probe: Uri -> Response)

  /** The default hop budget of `ping`. */
  const PingLimit: int := 5

  /**
   * `ping` (begs.rb): follows redirects while `limit` stays positive.  For a
   * URI that is not http(s) the `request_uri` of the request line raises and
   * is rescued, but the log message that follows calls it again unrescued.
   */
  function Ping(url: string, limit: int, net: Net): (r: Outcome)
    ensures limit <= 0 ==> r == Nil
    ensures r.Str? || r == Nil || r == Raises
    ensures limit > 0 && net.parse(WithScheme(url)).Some? && !IsHttp(net.parse(WithScheme(url)).value) ==> r == Raises
    decreases limit
  {
    if limit <= 0 then Nil
    else match net.parse(WithScheme(url))
      case None => Nil
      case Some(uri) =>
        if !IsHttp(uri) then Raises
        else match net.probe(uri)
        case Success => Reassemble(uri)
        case ClientError => Reassemble(uri)
        case Redirect(location) =>
          // a missing Location makes the next call fail to build its URL: nil
          if location.Some? then Ping(location.value, limit - 1, net) else Nil
        case _ => Nil
  }

  /** The URL reached from `url` after `n` redirects, if the first `n` answers are redirects. */
  function Hops(url: string, n: nat, net: Net): Option<string>
    decreases n
  {
    if n == 0 then Some(url)
    else match net.parse(WithScheme(url))
      case None => None
      case Some(uri) =>
        if !IsHttp(uri) then None
        else match net.probe(uri)
          case Redirect(Some(next)) => Hops(next, n - 1, net)
          case _ => None
  }

  /** The http(s) URI of `url` when the answer for it ends the chase (2xx or 4xx). */
  function Terminal(url: string, net: Net): Option<Uri>
  {
    match net.parse(WithScheme(url))
    case None => None
    case Some(uri) =>
      if IsHttp(uri) && (net.probe(uri) == Success || net.probe(uri) == ClientError) then Some(uri) else None
  }

  /** `ping` raises on `url` itself: a URI that is not http(s), or an ending answer for http on a port other than 80. */
  predicate RaisesAt(url: string, net: Net)
  {
    match net.parse(WithScheme(url))
    case None => false
    case Some(uri) =>
      !IsHttp(uri) ||
      ((net.probe(uri) == Success || net.probe(uri) == ClientError) && uri.scheme == "http" && uri.port != 80)
  }

  /** A chain of k redirects ending in 2xx or 4xx resolves when k is below the limit. */
  lemma {:induction false} PingFollowsChain(url: string, k: nat, limit: int, net: Net)
    requires k < limit
    requires Hops(url, k, net).Some? && Terminal(Hops(url, k, net).value, net).Some?
    ensures Ping(url, limit, net) == Reassemble(Terminal(Hops(url, k, net).value, net).value)
    decreases k
  {
    if k > 0 {
      var uri := net.parse(WithScheme(url)).value;
      var next := net.probe(uri).location.value;
      PingFollowsChain(next, k - 1, limit - 1, net);
    }
  }

  /** As many redirects as the limit allows exhausts it: the result is nil. */
  lemma {:induction false} PingRedirectLimit(url: string, limit: nat, net: Net)
    requires Hops(url, limit, net).Some?
    ensures Ping(url, limit, net) == Nil
    decreases limit
  {
    if limit > 0 {
      var uri := net.parse(WithScheme(url)).value;
      var next := net.probe(uri).location.value;
      PingRedirectLimit(next, limit - 1, net);
    }
  }

  /** Every URL `ping` returns is the reassembly of the end of a redirect chain shorter than the limit. */
  lemma {:induction false} PingSound(url: string, limit: int, net: Net)
    requires Ping(url, limit, net).Str?
    ensures exists k: nat ::
      (k < limit && Hops(url, k, net).Some? &&
       Terminal(Hops(url, k, net).value, net).Some? &&
       Ping(url, limit, net) == Reassemble(Terminal(Hops(url, k, net).value, net).value))
    decreases limit
  {
    var uri := net.parse(WithScheme(url)).value;
    match net.probe(uri)
    case Redirect(location) =>
      var next := location.value;
      PingSound(next, limit - 1, net);
      var k: nat :| k < limit - 1 && Hops(next, k, net).Some? &&
        Terminal(Hops(next, k, net).value, net).Some? &&
        Ping(next, limit - 1, net) == Reassemble(Terminal(Hops(next, k, net).value, net).value);
      assert Hops(url, k + 1, net) == Hops(next, k, net);
    case Success =>
      assert Hops(url, 0, net) == Some(url);
    case ClientError =>
      assert Hops(url, 0, net) == Some(url);
  }

  /** A chain of k redirects below the limit that ends where `ping` raises makes `ping` raise. */
  lemma {:induction false} PingRaisesOnChain(url: string, k: nat, limit: int, net: Net)
    requires k < limit
    requires Hops(url, k, net).Some? && RaisesAt(Hops(url, k, net).value, net)
    ensures Ping(url, limit, net) == Raises
    decreases k
  {
    var uri := net.parse(WithScheme(url)).value;
    if k > 0 {
      var next := net.probe(uri).location.value;
      PingRaisesOnChain(next, k - 1, limit - 1, net);
    } else {
      ReassembleRaises(uri);
    }
  }

  /** Every time `ping` raises, a redirect chain shorter than the limit ends where it raises. */
  lemma {:induction false} PingRaisesSound(url: string, limit: int, net: Net)
    requires Ping(url, limit, net) == Raises
    ensures exists k: nat :: k < limit && Hops(url, k, net).Some? && RaisesAt(Hops(url, k, net).value, net)
    decreases limit
  {
    var uri := net.parse(WithScheme(url)).value;
    assert Hops(url, 0, net) == Some(url);
    if IsHttp(uri) {
      match net.probe(uri)
      case Redirect(location) =>
        var next := location.value;
        PingRaisesSound(next, limit - 1, net);
        var k: nat :| k < limit - 1 && Hops(next, k, net).Some? && RaisesAt(Hops(next, k, net).value, net);
        assert Hops(url, k + 1, net) == Hops(next, k, net);
      case Success =>
        ReassembleRaises(uri);
      case ClientError =>
        ReassembleRaises(uri);
    }
  }

  /** Whatever `ping` resolves to carries the colon of its "://". */
  lemma PingResultHasColon(url: string, limit: int, net: Net)
    ensures Ping(url, limit, net).Str? ==> ':' in Ping(url, limit, net).s
  {
    if Ping(url, limit, net).Str? {
      PingSound(url, limit, net);
      var k: nat :|
        (k < limit && Hops(url, k, net).Some? &&
         Terminal(Hops(url, k, net).value, net).Some? &&
         Ping(url, limit, net) == Reassemble(Terminal(Hops(url, k, net).value, net).value));
      ReassembledHasColon(Terminal(Hops(url, k, net).value, net).value);
    }
  }

  /** The host check of begs.rb discards its value: a URL on the service's own host is probed like any other. */
  lemma PingAcceptsOwnHost(url: string, limit: int, net: Net)
    requires limit > 0
    requires net.parse(WithScheme(url)).Some? && net.parse(WithScheme(url)).value.host == "be.gs"
    requires net.probe(net.parse(WithScheme(url)).value) == Success
    ensures Ping(url, limit, net) == Reassemble(net.parse(WithScheme(url)).value)
  {
  }

  /**
   * `ping` (main.rb).  Its three guards discard their values, so `limit` is
   * never consulted and `false` is never returned; a parse failure and a
   * failing request raise; `get_response` needs `request_uri`, which only
   * http(s) URIs have; a redirect calls `fetch`, which is not defined in
   * main.rb, and so raises too.
   */
  function LegacyPing(url: string, net: Net): (r: Outcome)
    ensures r.Str? || r == Nil || r == Raises
    ensures r.Str? ==> ':' in r.s
  {
    match net.parse(WithExactScheme(url))
    case None => Raises
    case Some(uri) =>
      if !IsHttp(uri) then Raises
      else match net.probe(uri)
        case Success => ReassemblePath(uri)
        case ClientError => ReassemblePath(uri)
        case Redirect(_) => Raises
        case Raised => Raises
        case Other => Nil
  }

  /** The http(s) URI of `url` when its answer is 2xx or 4xx, with main.rb's prefix rule. */
  function LegacyTerminal(url: string, net: Net): Option<Uri>
  {
    match net.parse(WithExactScheme(url))
    case None => None
    case Some(uri) =>
      if IsHttp(uri) && (net.probe(uri) == Success || net.probe(uri) == ClientError) then Some(uri) else None
  }

  /**
   * main.rb resolves a URL exactly when its first answer is 2xx or 4xx and
   * reassembly does not raise; it gives nil only for another status; every
   * other path raises.
   */
  lemma LegacyPingResolves(url: string, net: Net)
    ensures LegacyPing(url, net).Str? <==>
      LegacyTerminal(url, net).Some? && ReassemblePath(LegacyTerminal(url, net).value).Str?
    ensures var p := net.parse(WithExactScheme(url));
      LegacyPing(url, net) == Nil <==> p.Some? && IsHttp(p.value) && net.probe(p.value) == Other
    ensures var p := net.parse(WithExactScheme(url));
      LegacyPing(url, net) == Raises <==>
        || p.None? || !IsHttp(p.value)
        || net.probe(p.value).Redirect? || net.probe(p.value) == Raised
        || ((net.probe(p.value) == Success || net.probe(p.value) == ClientError) && ReassemblePath(p.value) == Raises)
  {
  }
}
