/** The GitHub-only fetch proxy of src/routes/fetch.js: the ordered checks of
    the target URL, the headers forwarded upstream and the response headers
    copied back. URL parsing (the WHATWG URL Standard) and the outbound
    request are parameters. */
module Fetch {
  import opened Wrappers
  import opened JsString
  import opened Bytes
  import opened Http

  /** A header value: a string, or a list of strings (Node gives `set-cookie` as an array). */
  datatype HeaderValue = Single(s: string) | Multi(items: seq<string>)

  /** JavaScript truthiness of a header value: only the empty string is falsy. */
  predicate HeaderTruthy(v: HeaderValue) {
    !(v.Single? && v.s == "")
  }

  /** The inbound header names that are never forwarded. */
  const HopByHop: set<string> := {
    "connection", "host", "accept-encoding", "content-length", "transfer-encoding", "upgrade",
    "keep-alive", "proxy-authenticate", "proxy-authorization", "te", "trailer"
  }

  /** The upstream response headers copied onto the proxy's response, in copy order. */
  const Passthrough: seq<string> := [
    "content-type", "cache-control", "etag", "last-modified", "content-language",
    "content-security-policy", "set-cookie", "location"
  ]

  const DefaultUserAgent := "Mozilla/5.0"

  /** `isAllowedGithubHost(hostname)`. */
  predicate IsAllowedGithubHost(hostname: string) {
    var h := ToLower(hostname);
    h == "github.com" || EndsWith(h, ".github.com")
  }

  /** The allowed hosts are `github.com` and its subdomains: the lowercased
      host ends in `github.com`, and that suffix is the whole host or is
      preceded by a dot (a label boundary). */
  lemma GithubHostIsDomainOrSubdomain(hostname: string)
    ensures var h := ToLower(hostname);
            IsAllowedGithubHost(hostname) <==>
            (|h| >= 10 && h[|h| - 10..] == "github.com" && (|h| == 10 || h[|h| - 11] == '.'))
  {
    var h := ToLower(hostname);
    var d := "github.com";
    assert ".github.com" == "." + d;
    EndsWithDotted(h, d);
    assert |h| == |d| ==> h[|h| - |d|..] == h;
  }

  /** `h` ends in `"." + d` exactly when it ends in `d` with a dot before it. */
  lemma EndsWithDotted(h: string, d: string)
    ensures EndsWith(h, "." + d) <==> |h| > |d| && h[|h| - |d|..] == d && h[|h| - |d| - 1] == '.'
  {
    if |h| > |d| && h[|h| - |d|..] == d && h[|h| - |d| - 1] == '.' {
      assert h[|h| - |d| - 1..] == "." + d;
    }
    if EndsWith(h, "." + d) {
      assert h[|h| - |d|..] == h[|h| - |d| - 1..][1..];
    }
  }

  /** A subdomain is accepted. */
  lemma SubdomainAccepted()
    ensures IsAllowedGithubHost("api.github.com")
  {
    var h := ToLower("api.github.com");
    assert h[|h| - 11..] == ".github.com" by {
      forall i | 0 <= i < 11 ensures h[|h| - 11..][i] == ".github.com"[i] {
        assert h[3 + i] == LowerChar("api.github.com"[3 + i]);
      }
    }
  }

  /** The host is compared case-insensitively. */
  lemma UpperCaseHostAccepted()
    ensures IsAllowedGithubHost("GitHub.com")
  {
    var h := ToLower("GitHub.com");
    assert h == "github.com" by {
      forall i | 0 <= i < 10 ensures h[i] == "github.com"[i] {
        assert h[i] == LowerChar("GitHub.com"[i]);
      }
    }
  }

  /** A host that merely ends in `github.com`, without a dot before it, is refused. */
  lemma LookalikeRefused()
    ensures !IsAllowedGithubHost("evilgithub.com")
  {
    GithubHostIsDomainOrSubdomain("evilgithub.com");
    var h := ToLower("evilgithub.com");
    assert h[3] == LowerChar('l') == 'l';
  }

  /** A host that only begins with `github.com` is refused. */
  lemma PrefixHostRefused()
    ensures !IsAllowedGithubHost("github.com.evil.io")
  {
    GithubHostIsDomainOrSubdomain("github.com.evil.io");
    var h := ToLower("github.com.evil.io");
    assert h[|h| - 1] == LowerChar('o') == 'o';
  }

  /** What the URL parser reports about an absolute URL. */
  datatype ParsedUrl = ParsedUrl(protocol: string, hostname: string, href: string)

  /** The four reasons a target URL is refused, each answered with 400. */
  datatype UrlError = MissingUrl | InvalidUrl | InvalidProtocol | HostNotAllowed {
    function Message(): string {
      match this
      case MissingUrl => "Missing url"
      case InvalidUrl => "Invalid url"
      case InvalidProtocol => "Invalid url protocol"
      case HostNotAllowed => "URL host not allowed"
    }
  }

  datatype Validation = Accepted(url: ParsedUrl) | Rejected(error: UrlError)

  predicate IsHttp(protocol: string) {
    protocol == "http:" || protocol == "https:"
  }

  /** The checks of lines 59-76, in order; `parse` is `new URL(url)`, `None`
      when it throws. The first failing check decides the error. */
  function ValidateUrl(url: Option<string>, parse: string -> Option<ParsedUrl>): (r: Validation)
    ensures r == Rejected(MissingUrl) <==> !TruthyString(url)
    ensures r == Rejected(InvalidUrl) <==> TruthyString(url) && parse(url.value).None?
    ensures r == Rejected(InvalidProtocol) <==>
              TruthyString(url) && parse(url.value).Some? && !IsHttp(parse(url.value).value.protocol)
    ensures r == Rejected(HostNotAllowed) <==>
              TruthyString(url) && parse(url.value).Some? && IsHttp(parse(url.value).value.protocol) &&
              !IsAllowedGithubHost(parse(url.value).value.hostname)
    ensures r.Accepted? ==> TruthyString(url) && parse(url.value) == Some(r.url) &&
                              IsHttp(r.url.protocol) && IsAllowedGithubHost(r.url.hostname)
  {
    if !TruthyString(url) then Rejected(MissingUrl)
    else match parse(url.value)
      case None => Rejected(InvalidUrl)
      case Some(p) =>
        if !IsHttp(p.protocol) then Rejected(InvalidProtocol)
        else if !IsAllowedGithubHost(p.hostname) then Rejected(HostNotAllowed)
        else Accepted(p)
  }

  /** An `ftp:` URL is refused for its protocol, whatever its host. */
  lemma FtpIsRefused(url: string, parse: string -> Option<ParsedUrl>)
    requires url != "" && parse(url).Some? && parse(url).value.protocol == "ftp:"
    ensures ValidateUrl(Some(url), parse) == Rejected(InvalidProtocol)
  {
    assert parse(url).value.protocol[0] == 'f';
  }

  /** An inbound header: its name and its value, `None` when undefined. */
  type Entry = (string, Option<HeaderValue>)

  /** The `reduce` of lines 78-87 over `Object.entries(req.headers)`: an entry
      is dropped when its lowercased name is hop-by-hop or its value is
      undefined, and otherwise written under its own name. */
  function Forwarded(entries: seq<Entry>): (r: map<string, HeaderValue>)
    ensures forall k :: k in r ==> ToLower(k) !in HopByHop
  {
    if entries == [] then map[]
    else
      var acc := Forwarded(entries[..|entries| - 1]);
      var (key, value) := entries[|entries| - 1];
      if ToLower(key) in HopByHop || value.None? then acc else acc[key := value.value]
  }

  /** The names of an object's entries are distinct. */
  ghost predicate DistinctNames(entries: seq<Entry>) {
    forall i, j :: 0 <= i < j < |entries| ==> entries[i].0 != entries[j].0
  }

  /** The forwarded headers are exactly the inbound ones with a defined value
      and a name that is not hop-by-hop; they keep name and value (so
      `cookie`, for one, is forwarded). */
  lemma ForwardedExact(entries: seq<Entry>)
    requires DistinctNames(entries)
    ensures forall k :: k in Forwarded(entries) <==>
              exists i :: 0 <= i < |entries| && entries[i].0 == k && entries[i].1.Some? && ToLower(k) !in HopByHop
    ensures forall i :: 0 <= i < |entries| && entries[i].1.Some? && ToLower(entries[i].0) !in HopByHop ==>
              Forwarded(entries)[entries[i].0] == entries[i].1.value
  {
    ForwardedNames(entries);
    ForwardedValues(entries);
  }

  /** The names `Forwarded` keeps. */
  lemma {:induction false} ForwardedNames(entries: seq<Entry>)
    ensures forall k :: k in Forwarded(entries) <==>
              exists i :: 0 <= i < |entries| && entries[i].0 == k && entries[i].1.Some? && ToLower(k) !in HopByHop
  {
    if entries != [] {
      var init := entries[..|entries| - 1];
      ForwardedNames(init);
      var n := |entries| - 1;
      forall k ensures k in Forwarded(entries) <==>
                exists i :: 0 <= i < |entries| && entries[i].0 == k && entries[i].1.Some? && ToLower(k) !in HopByHop
      {
        if k in Forwarded(entries) && k != entries[n].0 {
          var i :| 0 <= i < |init| && init[i].0 == k && init[i].1.Some? && ToLower(k) !in HopByHop;
          assert entries[i] == init[i];
        }
        if exists i :: 0 <= i < |entries| && entries[i].0 == k && entries[i].1.Some? && ToLower(k) !in HopByHop {
          var i :| 0 <= i < |entries| && entries[i].0 == k && entries[i].1.Some? && ToLower(k) !in HopByHop;
          if i < n {
            assert init[i] == entries[i];
          }
        }
      }
    }
  }

  /** The values `Forwarded` keeps, when names are distinct. */
  lemma {:induction false} ForwardedValues(entries: seq<Entry>)
    requires DistinctNames(entries)
    ensures forall i :: 0 <= i < |entries| && entries[i].1.Some? && ToLower(entries[i].0) !in HopByHop ==>
              entries[i].0 in Forwarded(entries) && Forwarded(entries)[entries[i].0] == entries[i].1.value
  {
    if entries != [] {
      var init := entries[..|entries| - 1];
      assert DistinctNames(init) by {
        forall i, j | 0 <= i < j < |init| ensures init[i].0 != init[j].0 {
          assert init[i] == entries[i] && init[j] == entries[j];
        }
      }
      ForwardedValues(init);
      var n := |entries| - 1;
      forall i | 0 <= i < |entries| && entries[i].1.Some? && ToLower(entries[i].0) !in HopByHop
        ensures entries[i].0 in Forwarded(entries) && Forwarded(entries)[entries[i].0] == entries[i].1.value
      {
        if i < n {
          assert init[i] == entries[i];
          assert entries[i].0 != entries[n].0;
        }
      }
    }
  }

  /** Lines 89-91: unless a truthy `user-agent` survived the filter, it is
      set to `'Mozilla/5.0'`; nothing else changes. */
  function WithUserAgent(headers: map<string, HeaderValue>): (r: map<string, HeaderValue>)
    ensures "user-agent" in r
    ensures "user-agent" in headers && HeaderTruthy(headers["user-agent"]) ==> r == headers
    ensures !("user-agent" in headers && HeaderTruthy(headers["user-agent"])) ==>
              r["user-agent"] == Single(DefaultUserAgent)
    ensures forall k :: k != "user-agent" ==> (k in r <==> k in headers) && (k in r ==> r[k] == headers[k])
  {
    if "user-agent" in headers && HeaderTruthy(headers["user-agent"]) then headers
    else headers["user-agent" := Single(DefaultUserAgent)]
  }

  /** The header object built by the `reduce` of lines 78-87, written entry by entry. */
  method ForwardHeaders(entries: seq<Entry>) returns (headers: map<string, HeaderValue>)
    ensures headers == Forwarded(entries)
  {
    headers := map[];
    var i := 0;
    while i < |entries|
      invariant 0 <= i <= |entries|
      invariant headers == Forwarded(entries[..i])
    {
      var (key, value) := entries[i];
      assert entries[..i + 1][..i] == entries[..i];
      if ToLower(key) !in HopByHop && value.Some? {
        headers := headers[key := value.value];
      }
      i := i + 1;
    }
    assert entries[..i] == entries;
  }

  /** The upstream headers that are passed through. */
  function PassedThrough(upstream: map<string, HeaderValue>): (r: map<string, HeaderValue>)
    ensures forall h :: h in r <==> h in Passthrough && h in upstream
    ensures forall h :: h in r ==> r[h] == upstream[h]
  {
    map h | h in upstream && h in Passthrough :: upstream[h]
  }

  /** The `forEach` of lines 102-107: each passthrough header the upstream
      response defines is set on the proxy's response, with its value. */
  method CopyResponseHeaders(upstream: map<string, HeaderValue>) returns (out: map<string, HeaderValue>)
    ensures forall h :: h in out <==> h in Passthrough && h in upstream
    ensures forall h :: h in out ==> out[h] == upstream[h]
    ensures out == PassedThrough(upstream)
  {
    out := map[];
    for i := 0 to |Passthrough|
      invariant forall h :: h in out <==> h in Passthrough[..i] && h in upstream
      invariant forall h :: h in out ==> out[h] == upstream[h]
    {
      var header := Passthrough[i];
      if header in upstream {
        out := out[header := upstream[header]];
      }
    }
    assert Passthrough[..|Passthrough|] == Passthrough;
  }

  /** The request sent upstream: `parsedUrl.toString()` and the headers. */
  datatype Outbound = Outbound(url: string, headers: map<string, HeaderValue>)

  /** What the outbound GET gives: any status (every status counts as success),
      or a transport failure such as a timeout or too many redirects. */
  datatype Upstream = Answered(status: int, headers: map<string, HeaderValue>, body: seq<byte>) | TransportFailure

  /** The proxy's raw answer: the upstream status, the copied headers and the body. */
  datatype Proxied = Proxied(status: int, headers: map<string, HeaderValue>, body: seq<byte>)

  /** GET `/` with query `url` and the inbound headers; `sent` is the request
      made upstream, if any. */
  method HandleFetch(url: Option<string>, inbound: seq<Entry>, parse: string -> Option<ParsedUrl>,
                     send: Outbound -> Upstream)
    returns (response: Reply<Proxied>, sent: Option<Outbound>)
    ensures ValidateUrl(url, parse).Rejected? ==>
              sent.None? && response == Fail(400, ValidateUrl(url, parse).error.Message())
    ensures ValidateUrl(url, parse).Accepted? ==>
              sent == Some(Outbound(ValidateUrl(url, parse).url.href, WithUserAgent(Forwarded(inbound))))
    ensures sent.Some? && send(sent.value).Answered? ==>
              response == Ok(Proxied(send(sent.value).status, PassedThrough(send(sent.value).headers), send(sent.value).body))
    ensures sent.Some? && send(sent.value).TransportFailure? ==> response == Fail(502, "Failed to fetch url")
  {
    var validation := ValidateUrl(url, parse);
    if validation.Rejected? {
      return Fail(400, validation.error.Message()), None;
    }
    var headers := ForwardHeaders(inbound);
    if !("user-agent" in headers && HeaderTruthy(headers["user-agent"])) {
      headers := headers["user-agent" := Single(DefaultUserAgent)];
    }
    var request := Outbound(validation.url.href, headers);
    sent := Some(request);
    var reply := send(request);
    if reply.TransportFailure? {
      return Fail(502, "Failed to fetch url"), sent;
    }
    var copied := CopyResponseHeaders(reply.headers);
    response := Ok(Proxied(reply.status, copied, reply.body));
  }
}
