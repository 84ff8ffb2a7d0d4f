/**
 * The GitHub stage: search the newest issue that mentions an address, take the
 * body of that issue and pick the first archived link of the requested kind
 * out of it (github.go).
 */
module GitHub {
  import opened Wrappers
  import opened Http
  import opened Json
  import opened Outcomes
  import opened Patterns

  /** Issue search, newest first, one result per page; the query is appended (github.go:31). */
  const Endpoint := "https://api.github.com/search/" + "issues?per_page=1&sor" + "t=created&order=desc&q="

  const AcceptValue := "application/vnd.github.v3+json"

  /** The query term every search ends with. */
  const ArchivedTerm := "+archived"

  /** `PLAYBACK_GITHUB_REPO` and `PLAYBACK_GITHUB_PAT`; the empty string when unset. */
  datatype Config = Config(repo: string, pat: string)

  /**
   * The issue-search service: for a request, the transport outcome and, on a
   * response, its body as `json.Unmarshal` into a map sees it (`None` when it
   * reports an error).
   */
  type IssueService = Request<()> -> Reply<Option<Json>>

  /**
   * `url.Parse` followed by `String()`: `None` when parsing fails, otherwise the
   * text of the parsed address.
   */
  type UrlParser = string -> Option<string>

  /** The pattern for a scope: the IPFS one for "ipfs", the Telegraph one for anything else (github.go:57-62). */
  function PatternFor(scope: string): (p: Pattern)
    ensures p == Ipfs <==> scope == "ipfs"
    ensures p == Telegraph <==> scope != "ipfs"
  {
    if scope == "ipfs" then Ipfs else Telegraph
  }

  /**
   * The repository filter (github.go:32-34): present exactly when a repository
   * is configured, and then `+repo:` followed by that repository.
   */
  function RepoFilter(repo: string): (f: string)
    ensures f == "" <==> repo == ""
    ensures repo != "" ==> |f| == 6 + |repo| && f[..6] == "+repo:" && f[6..] == repo
  {
    if repo == "" then "" else "+repo:" + repo
  }

  /** The four parts of a concatenation can be read back from it. */
  lemma FourParts(a: string, b: string, c: string, d: string)
    ensures (a + b + c + d)[..|a|] == a
    ensures (a + b + c + d)[|a|..|a| + |b|] == b
    ensures (a + b + c + d)[|a| + |b|..|a| + |b| + |c|] == c
    ensures (a + b + c + d)[|a| + |b| + |c|..] == d
  {
  }

  /** The search address (github.go:31-36): endpoint, input, optional repository filter, `+archived`. */
  function SearchUrl(cfg: Config, str: string): (url: string)
    ensures |url| == |Endpoint| + |str| + |RepoFilter(cfg.repo)| + |ArchivedTerm|
    ensures url[..|Endpoint|] == Endpoint
    ensures url[|Endpoint|..|Endpoint| + |str|] == str
    ensures url[|Endpoint| + |str|..|url| - |ArchivedTerm|] == RepoFilter(cfg.repo)
    ensures url[|url| - |ArchivedTerm|..] == ArchivedTerm
  {
    FourParts(Endpoint, str, RepoFilter(cfg.repo), ArchivedTerm);
    Endpoint + str + RepoFilter(cfg.repo) + ArchivedTerm
  }

  /** The request `request` sends (github.go:36-40). */
  function SearchRequest(cfg: Config, str: string): (r: Request<()>)
    ensures r.verb == "GET" && r.url == SearchUrl(cfg, str) && r.body == ()
    ensures Lookup(r.header, "Accept") == Some(AcceptValue)
    ensures Lookup(r.header, "Authorization").Some? <==> cfg.pat != ""
    ensures cfg.pat != "" ==> Lookup(r.header, "Authorization") == Some("token " + cfg.pat)
  {
    var accept := [("Accept", AcceptValue)];
    var header := if cfg.pat == "" then accept else accept + [("Authorization", "token " + cfg.pat)];
    Request("GET", SearchUrl(cfg, str), header, ())
  }

  /** Under one configuration, different addresses are searched with different queries. */
  lemma SearchUrlInjective(cfg: Config, a: string, b: string)
    requires SearchUrl(cfg, a) == SearchUrl(cfg, b)
    ensures a == b
  {
    var u := SearchUrl(cfg, a);
    var n := |Endpoint|;
    assert |a| == |b|;
    assert a == u[n..n + |a|] == b;
  }

  /**
   * `request` (github.go:30-54): the body of whatever response comes back. The status code is
   * never consulted, so an error page is parsed like a search result.
   */
  function Fetch(cfg: Config, net: IssueService, str: string): (r: Result<Option<Json>>)
    ensures r.Err? <==> net(SearchRequest(cfg, str)).TransportError?
    ensures r.Err? ==> r.error == net(SearchRequest(cfg, str)).text
    ensures r.Ok? ==> r.value == net(SearchRequest(cfg, str)).body
  {
    match net(SearchRequest(cfg, str))
    case TransportError(t) => Err(t)
    case Response(_, _, body) => Ok(body)
  }

  /** Whatever their status lines, two responses with one body give one result. */
  lemma StatusIgnored(cfg: Config, net1: IssueService, net2: IssueService, str: string)
    requires net1(SearchRequest(cfg, str)).Response? && net2(SearchRequest(cfg, str)).Response?
    requires net1(SearchRequest(cfg, str)).body == net2(SearchRequest(cfg, str)).body
    ensures Fetch(cfg, net1, str) == Fetch(cfg, net2, str)
  {
  }

  /** The document is an object whose `items` array starts with an object whose `body` is the string `b`. */
  ghost predicate HasIssueBody(doc: Option<Json>, b: string) {
    && doc.Some? && doc.value.JObject?
    && "items" in doc.value.fields && doc.value.fields["items"].JArray?
    && |doc.value.fields["items"].items| > 0
    && doc.value.fields["items"].items[0].JObject?
    && "body" in doc.value.fields["items"].items[0].fields
    && doc.value.fields["items"].items[0].fields["body"] == JString(b)
  }

  /** `items[0].body` of the search result, or "" for any other shape (github.go:103-130). */
  function ParseIssue(doc: Option<Json>): (body: string)
    ensures body != "" ==> HasIssueBody(doc, body)
    ensures forall b :: HasIssueBody(doc, b) ==> body == b
    ensures (forall b :: !HasIssueBody(doc, b)) ==> body == ""
  {
    match doc
    case None => ""
    case Some(j) =>
      if !j.JObject? || "items" !in j.fields then ""
      else match j.fields["items"]
        case JArray(items) =>
          if |items| == 0 || !items[0].JObject? || "body" !in items[0].fields then ""
          else (match items[0].fields["body"]
                case JString(b) => assert HasIssueBody(doc, b); b
                case _ => "")
        case _ => ""
  }

  /** The address of the first candidate that parses, or "" when none does. */
  function FirstLink(ms: seq<string>, parse: UrlParser): (dst: string)
    ensures (forall k :: 0 <= k < |ms| ==> parse(ms[k]).None?) ==> dst == ""
    ensures (exists k :: 0 <= k < |ms| && parse(ms[k]).Some?) ==>
      exists k :: 0 <= k < |ms| && parse(ms[k]) == Some(dst) && forall j :: 0 <= j < k ==> parse(ms[j]).None?
  {
    if ms == [] then ""
    else match parse(ms[0])
      case Some(u) => u
      case None =>
        var rest := FirstLink(ms[1..], parse);
        assert forall k :: 1 <= k < |ms| ==> ms[k] == ms[1..][k - 1];
        rest
  }

  /** `matchLink`: scan the matches of `p` in order and return the first that parses (github.go:78-88). */
  method MatchLink(p: Pattern, text: string, parse: UrlParser) returns (dst: string)
    ensures dst == FirstLink(FindAll(p, text, 0), parse)
  {
    var matches := FindAll(p, text, 0);
    var i := 0;
    while i < |matches|
      invariant 0 <= i <= |matches|
      invariant FirstLink(matches[i..], parse) == FirstLink(matches, parse)
    {
      var uri := parse(matches[i]);
      if uri.Some? {
        return uri.value;
      }
      assert matches[i..][1..] == matches[i + 1..];
      i := i + 1;
    }
    return "";
  }

  /**
   * `extract`: a failed request is reported as is; otherwise the first parseable
   * link of the scope's pattern in the issue body, or `errNotFound` when there is
   * none (github.go:56-76).
   */
  function Extract(cfg: Config, net: IssueService, parse: UrlParser, input: Url, scope: string): (o: Outcome)
    ensures Fetch(cfg, net, input.text).Err? ==> o == Failed(Fetch(cfg, net, input.text).error)
    ensures o.NotFound? <==>
      Fetch(cfg, net, input.text).Ok? &&
      FirstLink(FindAll(PatternFor(scope), ParseIssue(Fetch(cfg, net, input.text).value), 0), parse) == ""
    ensures o.Failed? <==> Fetch(cfg, net, input.text).Err?
    ensures o.Found? <==>
      Fetch(cfg, net, input.text).Ok? &&
      FirstLink(FindAll(PatternFor(scope), ParseIssue(Fetch(cfg, net, input.text).value), 0), parse) != ""
    ensures o.Found? ==>
      o.dst != "" &&
      o.dst == FirstLink(FindAll(PatternFor(scope), ParseIssue(Fetch(cfg, net, input.text).value), 0), parse)
  {
    match Fetch(cfg, net, input.text)
    case Err(e) => Failed(e)
    case Ok(data) =>
      var dst := FirstLink(FindAll(PatternFor(scope), ParseIssue(data), 0), parse);
      if dst == "" then NotFound else Found(dst)
  }

  /**
   * A found destination is the parse of a match of the scope's pattern in the
   * issue body, and that match is a whole link of the scope's kind.
   */
  lemma FoundIsLinkOfScope(cfg: Config, net: IssueService, parse: UrlParser, input: Url, scope: string)
    requires Extract(cfg, net, parse, input, scope).Found?
    ensures var body := ParseIssue(Fetch(cfg, net, input.text).value);
      exists m :: m in FindAll(PatternFor(scope), body, 0) && IsLink(PatternFor(scope), m) &&
        parse(m) == Some(Extract(cfg, net, parse, input, scope).dst)
  {
    var body := ParseIssue(Fetch(cfg, net, input.text).value);
    var p := PatternFor(scope);
    var ms := FindAll(p, body, 0);
    var dst := Extract(cfg, net, parse, input, scope).dst;
    var k :| 0 <= k < |ms| && parse(ms[k]) == Some(dst);
    FindAllAreLinks(p, body, 0);
    assert ms[k] in ms;
  }

  /**
   * `collects`: every link `isURL` accepts, keyed by itself; the others are
   * skipped (github.go:91-101). The source never calls it.
   */
  method Collects(links: seq<string>, isURL: string -> bool) returns (m: map<string, string>)
    ensures m.Keys == set l | l in links && isURL(l)
    ensures forall k :: k in m ==> m[k] == k
  {
    m := map[];
    var i := 0;
    while i < |links|
      invariant 0 <= i <= |links|
      invariant m.Keys == set l | l in links[..i] && isURL(l)
      invariant forall k :: k in m ==> m[k] == k
    {
      var link := links[i];
      assert links[..i + 1] == links[..i] + [link];
      if isURL(link) {
        m := m[link := link];
      }
      i := i + 1;
    }
    assert links[..i] == links;
  }
}
