/**
 * The Meilisearch stage on the repository's own search-reply fixture
 * (playback_test.go:22-49) and the lookup of `https://example.com`
 * (playback_test.go:222-246).
 */
module MeiliExamples {
  import opened Http
  import opened Outcomes
  import opened PatternExamples
  import opened Meili

  /** `https://example.com`, written as its scheme, the colon and the rest. */
  const Example := Url("https", "https" + ":" + "//example.com")

  /** The fixture's only hit: only `ip` and `ph` are retrieved. */
  const FixtureHit := Hit("", "", "", "", FixtureIpfsLink, FixtureTelegraphLink)

  /** An index that answers every search with the fixture. */
  function FixtureIndex(r: Request<SearchParams>): Reply<Decoded> {
    Response(200, "200 OK", Hits([FixtureHit]))
  }

  /** An index that fails every search. */
  function BrokenIndex(r: Request<SearchParams>): Reply<Decoded> {
    Response(500, "500 Internal Server Error", Undecodable("invalid character"))
  }

  /** The scheme is cut off, the rest of the address is searched as a phrase. */
  lemma ExampleTerm()
    ensures TrimLeft(Example.text, Example.scheme) == "://example.com"
    ensures Params(TrimLeft(Example.text, Example.scheme)).q == "\"" + "://example.com" + "\""
  {
    var scheme, rest := "https", "//example.com";
    assert ':' !in scheme by {
      assert forall k :: 0 <= k < |scheme| ==> scheme[k] != ':';
    }
    SchemeTrimmed(scheme, rest);
    assert Example.text == scheme + ":" + rest;
    assert ":" + rest == "://example.com";
  }

  /** With an endpoint configured, the Telegraph scope gives the hit's `ph` field. */
  lemma ExtractFixtureTelegraph(server: string)
    requires server != ""
    ensures Extract(NewMeili(Config(server, "", "")), FixtureIndex, Example, "telegraph") == Found(FixtureTelegraphLink)
  {
  }

  /** The IPFS scope gives the hit's `ip` field whole, not cut to 46 identifier characters. */
  lemma ExtractFixtureIpfs(server: string)
    requires server != ""
    ensures Extract(NewMeili(Config(server, "", "")), FixtureIndex, Example, "ip") == Found(FixtureIpfsLink)
    ensures Extract(NewMeili(Config(server, "", "")), FixtureIndex, Example, "ipfs") == Found(FixtureIpfsLink)
    ensures |FixtureIpfsLink| == 80
  {
  }

  /** A scope the index has no field for finds nothing, even with a hit. */
  lemma ExtractFixtureOtherScope(server: string)
    requires server != ""
    ensures Extract(NewMeili(Config(server, "", "")), FixtureIndex, Example, "ia") == NotFound
  {
  }

  /** Without an endpoint every lookup reports the disabled client. */
  lemma ExtractUnconfigured(indexing: string, apikey: string, scope: string)
    ensures Extract(NewMeili(Config("", indexing, apikey)), FixtureIndex, Example, scope) == Failed(DisabledText)
  {
  }

  /** A server error is reported by its status line, before the body is looked at. */
  lemma ExtractServerError(server: string, scope: string)
    requires server != ""
    ensures Extract(NewMeili(Config(server, "", "")), BrokenIndex, Example, scope) == Failed("500 Internal Server Error")
  {
  }
}
