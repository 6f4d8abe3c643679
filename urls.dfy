/**
 * URL canonicalisation: the scheme-prefix rule applied before parsing and
 * `reassemble_url`, which rebuilds a URL string from a parsed URI, in the
 * current (begs.rb) and the older (main.rb) form.
 */
module Urls {
  import opened Wrappers
  import opened Ruby

  /**
   * A URI as Ruby's URI library hands it over after parsing.  Parsing itself
   * is not modelled: callers receive a parser as a function.
   */
  datatype Uri = Uri(
    scheme: string,
    host: string,
    port: nat,
    path: string,
    query: Option<string>,
    fragment: Option<string>)

  /** `http`, then any number of `s`, then `://` at the start of `t` (begs.rb's pattern). */
  predicate HttpSchemeAhead(t: string)
  {
    |t| >= 4 && t[..4] == "http" && EssThenSeparator(t[4..])
  }

  predicate EssThenSeparator(t: string)
    decreases |t|
  {
    if t != [] && t[0] == 's' then EssThenSeparator(t[1..]) else |t| >= 3 && t[..3] == "://"
  }

  /** Exactly `http://` or `https://` at the start of `t` (main.rb's pattern). */
  predicate ExactSchemeAhead(t: string)
  {
    (|t| >= 7 && t[..7] == "http://") || (|t| >= 8 && t[..8] == "https://")
  }

  /** Ruby's `^` anchors at the start of the string and just after every newline. */
  predicate LineStart(s: string, i: int)
  {
    i == 0 || (0 < i <= |s| && s[i - 1] == '\n')
  }

  predicate MatchesScheme(url: string)
  {
    exists i :: 0 <= i <= |url| && LineStart(url, i) && HttpSchemeAhead(url[i..])
  }

  predicate MatchesExactScheme(url: string)
  {
    exists i :: 0 <= i <= |url| && LineStart(url, i) && ExactSchemeAhead(url[i..])
  }

  /** The string begs.rb hands to the parser: `http://` prepended unless the pattern matches. */
  function WithScheme(url: string): (r: string)
    ensures r == url || r == "http://" + url
    ensures r == url <==> MatchesScheme(url)
  {
    if MatchesScheme(url) then url else assert |"http://" + url| > |url|; "http://" + url
  }

  /** The string main.rb hands to the parser. */
  function WithExactScheme(url: string): (r: string)
    ensures r == url || r == "http://" + url
    ensures r == url <==> MatchesExactScheme(url)
  {
    if MatchesExactScheme(url) then url else assert |"http://" + url| > |url|; "http://" + url
  }

  /** The output of the prefix step always matches the pattern, so the step leaves it alone. */
  lemma WithSchemeIdempotent(url: string)
    ensures MatchesScheme(WithScheme(url))
    ensures WithScheme(WithScheme(url)) == WithScheme(url)
  {
    if !MatchesScheme(url) {
      var t := "http://" + url;
      assert t[0..] == t && t[..4] == "http" && t[4..][..3] == "://";
      assert LineStart(t, 0) && HttpSchemeAhead(t[0..]);
    }
  }

  lemma WithExactSchemeIdempotent(url: string)
    ensures MatchesExactScheme(WithExactScheme(url))
    ensures WithExactScheme(WithExactScheme(url)) == WithExactScheme(url)
  {
    if !MatchesExactScheme(url) {
      var t := "http://" + url;
      assert t[0..] == t && t[..7] == "http://";
      assert LineStart(t, 0) && ExactSchemeAhead(t[0..]);
    }
  }

  /** On a one-line input the prefix is skipped exactly when the input itself starts with the pattern. */
  lemma WithSchemeOneLine(url: string)
    requires '\n' !in url
    ensures WithScheme(url) == url <==> HttpSchemeAhead(url)
  {
    assert url[0..] == url;
    if HttpSchemeAhead(url) {
      assert LineStart(url, 0);
    }
    if WithScheme(url) == url {
      assert |"http://" + url| != |url|;
      var i :| 0 <= i <= |url| && LineStart(url, i) && HttpSchemeAhead(url[i..]);
      if i > 0 { assert url[i - 1] in url; }
    }
  }

  lemma WithExactSchemeOneLine(url: string)
    requires '\n' !in url
    ensures WithExactScheme(url) == url <==> ExactSchemeAhead(url)
  {
    assert url[0..] == url;
    if ExactSchemeAhead(url) {
      assert LineStart(url, 0);
    }
    if WithExactScheme(url) == url {
      assert |"http://" + url| != |url|;
      var i :| 0 <= i <= |url| && LineStart(url, i) && ExactSchemeAhead(url[i..]);
      if i > 0 { assert url[i - 1] in url; }
    }
  }

  /** Every input main.rb leaves alone, begs.rb leaves alone too. */
  lemma ExactSchemeIsScheme(t: string)
    requires ExactSchemeAhead(t)
    ensures HttpSchemeAhead(t)
  {
    if |t| >= 8 && t[..8] == "https://" {
      assert t[4] == t[..8][4] == 's';
      assert t[5..8] == t[..8][5..8] == "://";
      assert t[4..][0] == 's' && t[4..][1..] == t[5..];
      assert t[5..][..3] == t[5..8];
    } else {
      assert t[4..][..3] == "://";
    }
  }

  /**
   * `URI.parse` builds a URI::HTTP or URI::HTTPS exactly for these schemes;
   * only those classes have `request_uri`.  Any other scheme (begs.rb's
   * pattern lets "httpss://" through, for one) yields a URI::Generic.
   */
  predicate IsHttp(uri: Uri)
  {
    uri.scheme == "http" || uri.scheme == "https"
  }

  /**
   * The port part of `reassemble_url`.  Ruby reads
   * `(A) or (B) ? x : y` as `A or (B ? x : y)`: when A holds (http on a port
   * other than 80) the value is `true`, and adding `true` to the host string
   * raises a TypeError.
   */
  function PortSuffix(uri: Uri): Outcome
  {
    if uri.scheme == "http" && uri.port != 80 then Raises
    else if uri.scheme == "https" && uri.port != 443 then Str(":" + Decimal(uri.port))
    else Str("")
  }

  /** URI::HTTP#request_uri: path and query, with a leading "/" supplied when missing. */
  function RequestUri(uri: Uri): (r: string)
    ensures |r| >= 1 && r[0] == '/'
  {
    var pathQuery := uri.path + (if uri.query.Some? then "?" + uri.query.value else "");
    if pathQuery != [] && pathQuery[0] == '/' then pathQuery else "/" + pathQuery
  }

  function FragmentSuffix(uri: Uri): string
  {
    if uri.fragment.Some? then "#" + uri.fragment.value else ""
  }

  /**
   * `Begs.reassemble_url` (begs.rb): the port part raises for http on a port
   * other than 80, and `request_uri` raises for a URI that is not http(s).
   */
  function Reassemble(uri: Uri): (r: Outcome)
    ensures r.Str? ==> IsHttp(uri)
    ensures r.Str? ==> |r.s| > |uri.scheme| + 3 && r.s[..|uri.scheme| + 3] == uri.scheme + "://"
    ensures r.Str? || r == Raises
  {
    match PortSuffix(uri)
    case Str(port) =>
      if IsHttp(uri) then
        var s := uri.scheme + "://" + uri.host + port + RequestUri(uri) + FragmentSuffix(uri);
        assert s == (uri.scheme + "://") + (uri.host + port + RequestUri(uri) + FragmentSuffix(uri));
        Str(s)
      else Raises
    case _ => Raises
  }

  /** `reassemble_url` (main.rb): path only, query and fragment dropped; every URI class has a path. */
  function ReassemblePath(uri: Uri): (r: Outcome)
    ensures r.Str? ==> |r.s| >= |uri.scheme| + 3 && r.s[..|uri.scheme| + 3] == uri.scheme + "://"
    ensures r.Str? ==> |r.s| >= |uri.path| && r.s[|r.s| - |uri.path|..] == uri.path
    ensures r.Str? || r == Raises
  {
    match PortSuffix(uri)
    case Str(port) =>
      var s := uri.scheme + "://" + uri.host + port + uri.path;
      assert s == (uri.scheme + "://") + (uri.host + port) + uri.path;
      Str(s)
    case _ => Raises
  }

  /**
   * begs.rb's version raises for http on a port other than 80 and for every
   * scheme other than http and https; main.rb's only for the first.
   */
  lemma ReassembleRaises(uri: Uri)
    ensures Reassemble(uri) == Raises <==> !IsHttp(uri) || (uri.scheme == "http" && uri.port != 80)
    ensures ReassemblePath(uri) == Raises <==> uri.scheme == "http" && uri.port != 80
  {
  }

  /** Every reassembled URL carries the colon of its "://". */
  lemma ReassembledHasColon(uri: Uri)
    ensures Reassemble(uri).Str? ==> ':' in Reassemble(uri).s
    ensures ReassemblePath(uri).Str? ==> ':' in ReassemblePath(uri).s
  {
  }

  /** Default ports of http and https (sections 4.2.1 and 4.2.2 of RFC 9110). */
  function DefaultPort(scheme: string): Option<nat>
  {
    if scheme == "http" then Some(80) else if scheme == "https" then Some(443) else None
  }

  /** The authority written with the port only when it is not the scheme's default. */
  function Authority(uri: Uri): string
  {
    if DefaultPort(uri.scheme) == Some(uri.port) then uri.host else uri.host + ":" + Decimal(uri.port)
  }

  /** The canonical form `reassemble_url` is meant to produce. */
  function CanonicalUrl(uri: Uri): string
  {
    uri.scheme + "://" + Authority(uri) + RequestUri(uri) + FragmentSuffix(uri)
  }

  /** Split at its colons, the authority is the host, then the port when it is not the default. */
  lemma AuthorityFields(uri: Uri)
    requires ':' !in uri.host
    ensures Fields(Authority(uri)) ==
      if DefaultPort(uri.scheme) == Some(uri.port) then [uri.host] else [uri.host, Decimal(uri.port)]
  {
    FieldsWithoutColon(uri.host);
    if DefaultPort(uri.scheme) != Some(uri.port) {
      FieldsAfterColon(uri.host, Decimal(uri.port));
      FieldsWithoutColon(Decimal(uri.port));
    }
  }

  /**
   * The canonical form shows the port exactly when it differs from the
   * scheme's default, and loses nothing: for one scheme and colon-free hosts,
   * two URIs have the same authority exactly when host and port agree.
   */
  lemma CanonicalUrlPort(uri: Uri, other: Uri)
    requires IsHttp(uri) && other.scheme == uri.scheme
    requires ':' !in uri.host && ':' !in other.host
    ensures Authority(uri) == uri.host <==> DefaultPort(uri.scheme) == Some(uri.port)
    ensures Authority(uri) == Authority(other) <==> uri.host == other.host && uri.port == other.port
  {
    AuthorityFields(uri);
    AuthorityFields(other);
    DecimalInjective(uri.port, other.port);
  }

  /**
   * `reassemble_url` as written agrees with the canonical form on every http
   * and https URI except http on a non-default port, where it raises.
   */
  lemma ReassembleAgainstCanonical(uri: Uri)
    requires uri.scheme == "http" || uri.scheme == "https"
    ensures Reassemble(uri) ==
      if uri.scheme == "http" && uri.port != 80 then Raises else Str(CanonicalUrl(uri))
  {
    if !(uri.scheme == "http" && uri.port != 80) {
      var port := PortSuffix(uri).s;
      assert uri.host + port == Authority(uri);
      assert Reassemble(uri) == Str(uri.scheme + "://" + uri.host + port + RequestUri(uri) + FragmentSuffix(uri));
    }
  }

  /**
   * main.rb's `reassemble_url` on http and https: scheme://host, the port
   * only when it is not the default, then the path alone; it raises for http
   * on a port other than 80.
   */
  lemma ReassemblePathAgainstCanonical(uri: Uri)
    requires IsHttp(uri)
    ensures ReassemblePath(uri) ==
      if uri.scheme == "http" && uri.port != 80 then Raises else Str(uri.scheme + "://" + Authority(uri) + uri.path)
  {
    if !(uri.scheme == "http" && uri.port != 80) {
      var port := PortSuffix(uri).s;
      assert uri.host + port == Authority(uri);
      assert ReassemblePath(uri) == Str(uri.scheme + "://" + uri.host + port + uri.path);
    }
  }
}
