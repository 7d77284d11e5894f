/**
 * The domain allowlist that governs `mcp.fetch.get` (`isAllowed` and
 * `mcp_fetch_get` in sw.js). Parsing a URL into its host name is left to the
 * caller: a URL that does not parse is given as None.
 */
module Policy {
  import opened Wrappers
  import opened Text

  /** `host === d || host.endsWith('.' + d)`. */
  predicate Covers(entry: string, host: string) {
    host == entry || EndsWith(host, "." + entry)
  }

  /**
   * `isAllowed`: an empty allowlist permits everything, even a URL that does
   * not parse; otherwise the host must be covered by some entry.
   */
  function IsAllowed(allowlist: seq<string>, host: Option<string>): (allowed: bool)
    ensures allowlist == [] ==> allowed
    ensures allowlist != [] && host.None? ==> !allowed
    ensures allowlist != [] && host.Some? ==> (allowed <==> exists k :: 0 <= k < |allowlist| && Covers(allowlist[k], host.value))
  {
    if |allowlist| == 0 then true
    else match host
      case None => false
      case Some(h) => exists k :: 0 <= k < |allowlist| && Covers(allowlist[k], h)
  }

  /** Whatever an entry covers, it covers every sub-domain of too. */
  lemma CoversSubdomain(entry: string, host: string, sub: string)
    requires Covers(entry, host)
    ensures Covers(entry, sub + "." + host)
  {
    var full := sub + "." + host;
    var suffix := "." + entry;
    if host == entry {
      assert full[|full| - |suffix|..] == suffix;
    } else {
      assert full[|full| - |suffix|..] == host[|host| - |suffix|..];
    }
  }

  /** An allowed host keeps its sub-domains allowed. */
  lemma AllowedSubdomain(allowlist: seq<string>, host: string, sub: string)
    requires IsAllowed(allowlist, Some(host))
    ensures IsAllowed(allowlist, Some(sub + "." + host))
  {
    if allowlist != [] {
      var k :| 0 <= k < |allowlist| && Covers(allowlist[k], host);
      CoversSubdomain(allowlist[k], host, sub);
    }
  }

  /** Every entry allows its own domain. */
  lemma EntryAllowed(allowlist: seq<string>, k: nat)
    requires k < |allowlist|
    ensures IsAllowed(allowlist, Some(allowlist[k]))
  {
  }

  /** What the network returns for a GET: the status, the response headers and the body text. */
  datatype Response = Response(status: int, headers: map<string, string>, body: string)

  /** What `fetch` and `res.text()` do: resolve with a response, or reject with an error (as `String(e)` reads). */
  datatype Network = Responds(response: Response) | Rejects(error: string)

  /** How `mcp_fetch_get` ends: the refusal or the response it returns, or the rejection it lets through. */
  datatype FetchResult = NotAllowed | Fetched(status: int, headers: map<string, string>, body: string) | Rejected(error: string)

  const MaxBody: nat := 500000

  /** `body.slice(0, 500000)`. */
  function Truncate(body: string): (r: string)
    ensures |r| <= MaxBody && |r| <= |body|
    ensures r == body[..|r|]
    ensures |body| <= MaxBody ==> r == body
  {
    if |body| <= MaxBody then body else body[..MaxBody]
  }

  /**
   * `mcp_fetch_get`: refused unless the allowlist permits the URL's host;
   * otherwise the response, with its body cut to 500000 characters, or the
   * network's rejection, which is not caught. The network is the `fetch`
   * argument.
   */
  function FetchGet(allowlist: seq<string>, host: Option<string>, fetch: Network): (r: FetchResult)
    ensures r.NotAllowed? <==> !IsAllowed(allowlist, host)
    ensures r.Rejected? <==> IsAllowed(allowlist, host) && fetch.Rejects?
    ensures r.Rejected? ==> r.error == fetch.error
    ensures r.Fetched? ==> fetch.Responds? && r.status == fetch.response.status && r.headers == fetch.response.headers
    ensures r.Fetched? ==> |r.body| <= MaxBody && |r.body| <= |fetch.response.body| && r.body == fetch.response.body[..|r.body|]
  {
    if !IsAllowed(allowlist, host) then NotAllowed
    else match fetch
      case Rejects(e) => Rejected(e)
      case Responds(res) => Fetched(res.status, res.headers, Truncate(res.body))
  }
}
