/**
 * The GitHub stage on the repository's own search-result fixture
 * (playback_test.go:50-75), and on replies without a usable issue.
 */
module GitHubExamples {
  import opened Wrappers
  import opened Http
  import opened Json
  import opened Outcomes
  import opened Patterns
  import opened PatternExamples
  import opened GitHub

  /** The fixture's only issue, reduced to some of its fields and its body. */
  const FixtureIssue := JObject(map[
    "id" := JNumber("35802"),
    "number" := JNumber("132"),
    "state" := JString("open"),
    "user" := JNull,
    "locked" := JBool(true),
    "body" := JString(FixtureBody)])

  const FixtureDoc := JObject(map[
    "total_count" := JNumber("1"),
    "incomplete_results" := JBool(false),
    "items" := JArray([FixtureIssue])])

  /** A service that answers every search with the fixture. */
  function FixtureService(r: Request<()>): Reply<Option<Json>> {
    Response(200, "200 OK", Some(FixtureDoc))
  }

  /** A parser that accepts every candidate as it is. */
  function Verbatim(m: string): Option<string> {
    Some(m)
  }

  lemma FixtureBodyParsed()
    ensures ParseIssue(Some(FixtureDoc)) == FixtureBody
  {
    assert HasIssueBody(Some(FixtureDoc), FixtureBody);
  }

  /** A body whose only match parses to itself gives that match. */
  lemma ExtractSingleMatch(cfg: Config, net: IssueService, parse: UrlParser, input: Url, scope: string, doc: Option<Json>, link: string)
    requires Fetch(cfg, net, input.text) == Ok(doc)
    requires FindAll(PatternFor(scope), ParseIssue(doc), 0) == [link]
    requires parse(link) == Some(link) && link != ""
    ensures Extract(cfg, net, parse, input, scope) == Found(link)
  {
    assert FirstLink([link], parse) == link;
  }

  /** For IPFS the stage finds the fixture's first link, which contains `ipfs.io`. */
  lemma ExtractFixtureIpfs(cfg: Config, input: Url)
    ensures Extract(cfg, FixtureService, Verbatim, input, "ipfs") ==
      Found("https://ipfs.io/ipfs/" + "bafybeibndw52abcyf5i" + "672uw123fh2l6ifhwjac" + "js56fh")
  {
    var link := "https://ipfs.io/ipfs/" + "bafybeibndw52abcyf5i" + "672uw123fh2l6ifhwjac" + "js56fh";
    assert Fetch(cfg, FixtureService, input.text) == Ok(Some(FixtureDoc));
    FixtureBodyParsed();
    FixtureIpfsMatch();
    ExtractSingleMatch(cfg, FixtureService, Verbatim, input, "ipfs", Some(FixtureDoc), link);
  }

  /** For Telegraph the stage finds the fixture's second link. */
  lemma ExtractFixtureTelegraph(cfg: Config, input: Url)
    ensures Extract(cfg, FixtureService, Verbatim, input, "telegraph") == Found(FixtureTelegraphLink)
  {
    assert Fetch(cfg, FixtureService, input.text) == Ok(Some(FixtureDoc));
    FixtureBodyParsed();
    FixtureTelegraphMatch();
    ExtractSingleMatch(cfg, FixtureService, Verbatim, input, "telegraph", Some(FixtureDoc), FixtureTelegraphLink);
  }

  /** A parser that rejects every address. */
  function Rejecting(m: string): Option<string> {
    None
  }

  /** Links that do not parse count as no link at all. */
  lemma ExtractFixtureUnparsable(cfg: Config, input: Url, scope: string)
    ensures Extract(cfg, FixtureService, Rejecting, input, scope) == NotFound
  {
  }

  /** A rate-limit refusal: status 403 and an object without `items`. */
  function RefusingService(r: Request<()>): Reply<Option<Json>> {
    Response(403, "403 Forbidden", Some(JObject(map["message" := JString("API rate limit exceeded")])))
  }

  /** A refused search is not an error: the body is parsed, and nothing is found in it. */
  lemma ExtractRefused(cfg: Config, parse: UrlParser, input: Url, scope: string)
    ensures Extract(cfg, RefusingService, parse, input, scope) == NotFound
  {
    var doc := Some(JObject(map["message" := JString("API rate limit exceeded")]));
    assert ParseIssue(doc) == "";
    assert FindAll(PatternFor(scope), "", 0) == [];
  }
}
