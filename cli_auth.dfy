/** `getServerURL` of `internal/cli/auth.go`: which Nametag server the
    command line talks to. */
module CliAuth {
  import opened Wrappers
  import opened Text
  import opened Directory

  const ServerEnv: string := "NAMETAG_SERVER"
  const DefaultServer: string := "https://nametag.co"
  const ProductionHost: string := "nametag.co"
  const StagingHost: string := "nametagstaging.com"
  const DevSuffix: string := ".nametagdev.com"
  const Https: string := "https://"
  const CannotParse: string := "cannot parse nametag server url: "
  const InvalidServer: string := "invalid nametag server url"

  /** The server asked for: the `--server` flag, else the environment
      variable, else the default. */
  function ChosenServer(flag: string, env: string): (s: string)
    ensures s != ""
    ensures flag != "" ==> s == flag
    ensures flag == "" && env != "" ==> s == env
    ensures flag == "" && env == "" ==> s == DefaultServer
  {
    if flag != "" then flag else if env != "" then env else DefaultServer
  }

  /** The hosts the command line may talk to: production, staging, and any
      development host. */
  predicate AllowedHost(host: string) {
    host == ProductionHost || host == StagingHost || HasSuffix(host, DevSuffix)
  }

  // ---------------------------------------------------------------------
  // `url.URL.String` writes the host through `escape(host, encodeHost)`

  const HostPunctuation: set<char> :=
    {'-', '_', '.', '~', '!', '$', '&', '\'', '(', ')', '*', '+', ',', ';', '=', ':', '[', ']', '<', '>', '"'}
  const UpperHex: string := "0123456789ABCDEF"

  /** A character the host encoding writes as it is: an ASCII letter or digit,
      or one of the punctuation marks `shouldEscape` lets through in a host. */
  predicate HostSafe(c: char) {
    'a' <= c <= 'z' || 'A' <= c <= 'Z' || '0' <= c <= '9' || c in HostPunctuation
  }

  /** One byte as `%` and two upper-case hexadecimal digits. */
  function PercentByte(b: int): (s: string)
    requires 0 <= b < 0x100
    ensures |s| == 3 && s[0] == '%'
  {
    ['%', UpperHex[b / 16], UpperHex[b % 16]]
  }

  function PercentBytes(bs: seq<int>): (s: string)
    requires forall k :: 0 <= k < |bs| ==> 0 <= bs[k] < 0x100
    ensures |s| == 3 * |bs|
  {
    if bs == [] then [] else PercentByte(bs[0]) + PercentBytes(bs[1..])
  }

  /** One character of the host as written: itself when safe, else every
      byte of its UTF-8 encoding percent-encoded. */
  function EscapeHostChar(c: char): string {
    if HostSafe(c) then [c] else PercentBytes(Utf8Bytes(c))
  }

  /** `escape(host, encodeHost)`. */
  function EscapeHost(h: string): (e: string)
    ensures |e| >= |h|
  {
    if h == [] then [] else EscapeHostChar(h[0]) + EscapeHost(h[1..])
  }

  /** A host made of safe characters only is written unchanged. */
  lemma {:induction false} EscapeHostSafe(h: string)
    requires forall k :: 0 <= k < |h| ==> HostSafe(h[k])
    ensures EscapeHost(h) == h
  {
    if h != [] {
      EscapeHostSafe(h[1..]);
      assert h == [h[0]] + h[1..];
    }
  }

  /** A non-ASCII letter is written as its UTF-8 bytes: `é` as `%C3%A9`. */
  lemma EscapeHostNonASCII(c: char)
    requires c == '\U{E9}'
    ensures EscapeHostChar(c) == "%C3%A9"
  {
    assert Utf8Bytes(c) == [0xC3, 0xA9];
    assert PercentBytes(Utf8Bytes(c)[1..][1..]) == [];
  }

  /** The production host is written unchanged. */
  lemma ProductionHostUnescaped(h: string)
    requires h == ProductionHost
    ensures EscapeHost(h) == h
  {
    assert forall k :: 0 <= k < |h| ==> HostSafe(h[k]);
    EscapeHostSafe(h);
  }

  /** A `%` in a host is itself escaped, as `%25`. */
  lemma EscapePercent(c: char)
    requires c == '%'
    ensures EscapeHostChar(c) == "%25"
  {
    assert Utf8Bytes(c) == [0x25];
    assert PercentBytes(Utf8Bytes(c)[1..]) == [];
  }

  /** `getServerURL`. `flag` is the flag's value or the error reading it,
      `env` the environment variable's value, and `parseHost` gives the host
      of a URL (`url.Parse` followed by `.Host`). The answer is the allowed
      host over HTTPS, escaped as a host, with no path or query. */
  function ServerURL(flag: Result<string, Error>, env: string, parseHost: string -> Result<string, Error>)
    : (r: Result<string, Error>)
    ensures flag.Err? ==> r == Err(flag.error)
    ensures flag.Ok? ==>
      var host := parseHost(ChosenServer(flag.value, env));
      (host.Err? ==> r == Err(Wrapped(CannotParse, host.error)))
      && (host.Ok? && !AllowedHost(host.value) ==> r == Err(Plain(InvalidServer)))
      && (host.Ok? && AllowedHost(host.value) ==> r == Ok(Https + EscapeHost(host.value)))
    ensures r.Ok? ==> exists h :: AllowedHost(h) && r.value == Https + EscapeHost(h)
  {
    if flag.Err? then Err(flag.error)
    else
      var host := parseHost(ChosenServer(flag.value, env));
      if host.Err? then Err(Wrapped(CannotParse, host.error))
      else if !AllowedHost(host.value) then Err(Plain(InvalidServer))
      else Ok(Https + EscapeHost(host.value))
  }

  /** Without a flag or an environment variable, the production server is
      used, provided that `url.Parse` reads its host. */
  lemma DefaultIsProduction(env: string, parseHost: string -> Result<string, Error>)
    requires env == "" && parseHost(DefaultServer) == Ok(ProductionHost)
    ensures ServerURL(Ok(""), env, parseHost) == Ok(DefaultServer)
  {
    assert Https + ProductionHost == DefaultServer;
    ProductionHostUnescaped(parseHost(DefaultServer).value);
  }

  /** An accepted server, given back as the flag, is accepted again
      unchanged, provided that `url.Parse` reads back, from the escaped
      `https://` URL, any allowed host it produced itself. */
  lemma ServerURLIdempotent(flag: Result<string, Error>, env: string, parseHost: string -> Result<string, Error>)
    requires ServerURL(flag, env, parseHost).Ok?
    requires forall s :: parseHost(s).Ok? && AllowedHost(parseHost(s).value) ==>
      parseHost(Https + EscapeHost(parseHost(s).value)) == parseHost(s)
    ensures var url := ServerURL(flag, env, parseHost).value;
      forall env' :: ServerURL(Ok(url), env', parseHost) == Ok(url)
  {
    var url := ServerURL(flag, env, parseHost).value;
    var host := parseHost(ChosenServer(flag.value, env));
    assert host.Ok? && AllowedHost(host.value) && url == Https + EscapeHost(host.value);
    assert url != "" by {
      assert |url| == |Https| + |EscapeHost(host.value)|;
    }
    forall env' ensures ServerURL(Ok(url), env', parseHost) == Ok(url) {
      assert ChosenServer(url, env') == url;
    }
  }
}
