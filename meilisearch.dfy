/**
 * The Meilisearch stage: look the address up in a search index of earlier
 * captures and take the IPFS or Telegraph field of the newest hit
 * (meilisearch.go).
 */
module Meili {
  import opened Wrappers
  import opened Http
  import opened Outcomes

  /** The index searched when `PLAYBACK_MEILI_INDEXING` is unset (meilisearch.go:22). */
  const DefaultIndexing := "capsules"

  /** The error text of a search on a client without an endpoint (meilisearch.go:51). */
  const DisabledText := "meilisearch disabled"

  const StatusOK := 200

  /** `PLAYBACK_MEILI_ENDPOINT`, `PLAYBACK_MEILI_INDEXING` and `PLAYBACK_MEILI_APIKEY`; "" when unset. */
  datatype Config = Config(endpoint: string, indexing: string, apikey: string)

  /** The `meili` client: whether it is switched off, the search address and the key. */
  datatype Client = Client(disabled: bool, endpoint: string, apikey: string)

  /** The search request body (meilisearch.go:55-67), before JSON encoding. */
  datatype SearchParams = SearchParams(q: string, limit: int, sort: seq<string>, matches: bool, attributesToRetrieve: seq<string>)

  /** One hit of the search reply; absent JSON fields decode as "". `archiveIs` is the `is` field. */
  datatype Hit = Hit(id: string, source: string, ia: string, archiveIs: string, ip: string, ph: string)

  /** A reply body as `json.Unmarshal` into the response struct sees it: its hits, or the decoding error. */
  datatype Decoded = Hits(hits: seq<Hit>) | Undecodable(text: string)

  type IndexService = Request<SearchParams> -> Reply<Decoded>

  /** The index name: the configured one, or the default when none is set. */
  function IndexName(cfg: Config): (name: string)
    ensures name != ""
    ensures cfg.indexing != "" ==> name == cfg.indexing
    ensures cfg.indexing == "" ==> name == DefaultIndexing
  {
    if cfg.indexing == "" then DefaultIndexing else cfg.indexing
  }

  /**
   * `newMeili` (meilisearch.go:32-47): switched off exactly when no endpoint is
   * configured, searching `<endpoint>/indexes/<index>/search`.
   */
  function NewMeili(cfg: Config): (m: Client)
    ensures m.disabled <==> cfg.endpoint == ""
    ensures m.endpoint == cfg.endpoint + "/indexes/" + IndexName(cfg) + "/search"
    ensures m.apikey == cfg.apikey
  {
    Client(cfg.endpoint == "", cfg.endpoint + "/indexes/" + IndexName(cfg) + "/search", cfg.apikey)
  }

  /** Naming the default index explicitly configures the same client as naming none. */
  lemma DefaultIndexingExplicit(endpoint: string, apikey: string)
    ensures NewMeili(Config(endpoint, "", apikey)) == NewMeili(Config(endpoint, DefaultIndexing, apikey))
  {
  }

  /** Different index names give different search addresses. */
  lemma SearchAddressInjective(a: Config, b: Config)
    requires a.endpoint == b.endpoint
    requires NewMeili(a).endpoint == NewMeili(b).endpoint
    ensures IndexName(a) == IndexName(b)
  {
    var u := NewMeili(a).endpoint;
    var n := |a.endpoint| + 9;
    assert |IndexName(a)| == |u| - n - 7 == |IndexName(b)|;
    assert IndexName(a) == u[n..n + |IndexName(a)|] == IndexName(b);
  }

  /** The search body: the term as a quoted phrase, newest hit only, IPFS and Telegraph fields only. */
  function Params(str: string): (p: SearchParams)
    ensures |p.q| == |str| + 2 && p.q[0] == '"' && p.q[|p.q| - 1] == '"'
    ensures p.q[1..|p.q| - 1] == str
    ensures p.limit == 1 && p.sort == ["id:desc"] && p.matches
    ensures p.attributesToRetrieve == ["ip", "ph"]
  {
    var q := "\"" + str + "\"";
    assert q[1..|q| - 1] == str;
    SearchParams(q, 1, ["id:desc"], true, ["ip", "ph"])
  }

  /** The request `request` sends (meilisearch.go:68-77). */
  function SearchRequest(m: Client, str: string): (r: Request<SearchParams>)
    ensures r.verb == "POST" && r.url == m.endpoint && r.body == Params(str)
    ensures Lookup(r.header, "Content-Type") == Some("application/json")
    ensures Lookup(r.header, "Authorization").Some? <==> m.apikey != ""
    ensures m.apikey != "" ==> Lookup(r.header, "Authorization") == Some("Bearer " + m.apikey)
  {
    var json := [("Content-Type", "application/json")];
    var header := if m.apikey == "" then json else json + [("Authorization", "Bearer " + m.apikey)];
    Request("POST", m.endpoint, header, Params(str))
  }

  /**
   * `request` (meilisearch.go:49-95): nothing is sent by a switched-off client;
   * any status other than 200 is an error carrying the status line.
   */
  function Fetch(m: Client, net: IndexService, str: string): (r: Result<Decoded>)
    ensures m.disabled ==> r == Err(DisabledText)
    ensures r.Ok? <==>
      !m.disabled && net(SearchRequest(m, str)).Response? && net(SearchRequest(m, str)).statusCode == StatusOK
    ensures r.Ok? ==> r.value == net(SearchRequest(m, str)).body
    ensures !m.disabled && net(SearchRequest(m, str)).TransportError? ==>
      r == Err(net(SearchRequest(m, str)).text)
    ensures !m.disabled && net(SearchRequest(m, str)).Response? && net(SearchRequest(m, str)).statusCode != StatusOK ==>
      r == Err(net(SearchRequest(m, str)).status)
  {
    if m.disabled then Err(DisabledText)
    else match net(SearchRequest(m, str))
      case TransportError(t) => Err(t)
      case Response(code, status, body) =>
        if code != StatusOK then Err(status) else Ok(body)
  }

  /** A switched-off client gives the same answer whatever the index service would have said. */
  lemma DisabledIsOffline(m: Client, net1: IndexService, net2: IndexService, str: string)
    requires m.disabled
    ensures Fetch(m, net1, str) == Fetch(m, net2, str) == Err(DisabledText)
  {
  }

  /**
   * `strings.TrimLeft(s, cutset)`: `s` without its longest prefix made only of
   * characters that occur in `cutset`.
   */
  function TrimLeft(s: string, cutset: string): (r: string)
    ensures |r| <= |s|
  {
    if s != [] && s[0] in cutset then TrimLeft(s[1..], cutset) else s
  }

  /**
   * What `TrimLeft` removes is a prefix, made only of cutset characters, and
   * the longest one: what remains does not start with a cutset character.
   */
  lemma {:induction false} TrimLeftSpec(s: string, cutset: string)
    ensures TrimLeft(s, cutset) == s[|s| - |TrimLeft(s, cutset)|..]
    ensures forall k :: 0 <= k < |s| - |TrimLeft(s, cutset)| ==> s[k] in cutset
    ensures TrimLeft(s, cutset) != [] ==> TrimLeft(s, cutset)[0] !in cutset
  {
    if s != [] && s[0] in cutset {
      TrimLeftSpec(s[1..], cutset);
      forall k | 1 <= k < |s| - |TrimLeft(s, cutset)| ensures s[k] in cutset {
        assert s[k] == s[1..][k - 1];
      }
    }
  }

  /** Trimming what is already trimmed changes nothing. */
  lemma TrimLeftIdempotent(s: string, cutset: string)
    ensures TrimLeft(TrimLeft(s, cutset), cutset) == TrimLeft(s, cutset)
  {
    TrimLeftSpec(s, cutset);
  }

  /** A prefix made of cut characters is removed whatever follows it. */
  lemma {:induction false} TrimLeftPrefix(p: string, t: string, cutset: string)
    requires forall k :: 0 <= k < |p| ==> p[k] in cutset
    ensures TrimLeft(p + t, cutset) == TrimLeft(t, cutset)
  {
    if p != [] {
      assert (p + t)[1..] == p[1..] + t;
      TrimLeftPrefix(p[1..], t, cutset);
    } else {
      assert p + t == t;
    }
  }

  /**
   * On an address written `scheme:rest`, cutting the scheme's characters removes
   * exactly the scheme: the colon stops it, since no scheme contains one.
   */
  lemma SchemeTrimmed(scheme: string, rest: string)
    requires ':' !in scheme
    ensures TrimLeft(scheme + ":" + rest, scheme) == ":" + rest
  {
    assert scheme + ":" + rest == scheme + (":" + rest);
    TrimLeftPrefix(scheme, ":" + rest, scheme);
  }

  /** The scopes that select the IPFS field. */
  predicate IpfsScope(scope: string) {
    scope == "ip" || scope == "ipfs"
  }

  /** The scopes that select the Telegraph field. */
  predicate TelegraphScope(scope: string) {
    scope == "ph" || scope == "telegraph"
  }

  /**
   * `extract` (meilisearch.go:97-134): search for the address without its scheme;
   * failures and undecodable replies are errors, no hit or an unknown scope is
   * `errNotFound`, and otherwise the scope's field of the first hit is the
   * answer, even when it is empty.
   */
  function Extract(m: Client, net: IndexService, input: Url, scope: string): (o: Outcome)
    ensures m.disabled ==> o == Failed(DisabledText)
    ensures var r := Fetch(m, net, TrimLeft(input.text, input.scheme));
      o.Failed? <==> r.Err? || r.value.Undecodable?
    ensures var r := Fetch(m, net, TrimLeft(input.text, input.scheme));
      r.Err? ==> o == Failed(r.error)
    ensures var r := Fetch(m, net, TrimLeft(input.text, input.scheme));
      r.Ok? && r.value.Undecodable? ==> o == Failed(r.value.text)
    ensures var r := Fetch(m, net, TrimLeft(input.text, input.scheme));
      o.Found? <==> r.Ok? && r.value.Hits? && |r.value.hits| > 0 && (IpfsScope(scope) || TelegraphScope(scope))
    ensures var r := Fetch(m, net, TrimLeft(input.text, input.scheme));
      o.Found? && IpfsScope(scope) ==> r.Ok? && r.value.Hits? && |r.value.hits| > 0 && o.dst == r.value.hits[0].ip
    ensures var r := Fetch(m, net, TrimLeft(input.text, input.scheme));
      o.Found? && TelegraphScope(scope) ==> r.Ok? && r.value.Hits? && |r.value.hits| > 0 && o.dst == r.value.hits[0].ph
  {
    match Fetch(m, net, TrimLeft(input.text, input.scheme))
    case Err(e) => Failed(e)
    case Ok(Undecodable(t)) => Failed(t)
    case Ok(Hits(hits)) =>
      if |hits| == 0 then NotFound
      else if IpfsScope(scope) then Found(hits[0].ip)
      else if TelegraphScope(scope) then Found(hits[0].ph)
      else NotFound
  }

  /** The term searched for an address `scheme:rest` is `:rest`, as a quoted phrase. */
  lemma SearchedTerm(scheme: string, rest: string)
    requires ':' !in scheme
    ensures Params(TrimLeft(scheme + ":" + rest, scheme)).q == "\"" + ":" + rest + "\""
  {
    SchemeTrimmed(scheme, rest);
  }
}
