/**
 * Two-stage playback of `https://example.com` against the repository's
 * fixtures (playback_test.go:93-147): the issues answer first; when they
 * cannot, the index does.
 */
module PlaybackExamples {
  import opened Http
  import opened Outcomes
  import opened PatternExamples
  import GitHub
  import opened GitHubExamples
  import Meili
  import opened MeiliExamples
  import opened Playback

  /** Both fixture services, an indexed endpoint, and any delegated clients. */
  function FixtureEnv(server: string, archive: (Service, Url) -> Outcome): Env {
    Env(GitHub.Config("", ""), FixtureService, Verbatim, Meili.Config(server, "", ""), FixtureIndex, archive)
  }

  /** The IPFS playback is the issue's link, with the identifier cut to 46 characters. */
  lemma PlaybackFixtureIpfs(server: string, archive: (Service, Url) -> Outcome)
    requires server != ""
    ensures Playback.Playback(IP(Example), FixtureEnv(server, archive)) ==
      "https://ipfs.io/ipfs/" + "bafybeibndw52abcyf5i" + "672uw123fh2l6ifhwjac" + "js56fh"
  {
    GitHubExamples.ExtractFixtureIpfs(GitHub.Config("", ""), Example);
  }

  /** The Telegraph playback is the issue's link. */
  lemma PlaybackFixtureTelegraph(server: string, archive: (Service, Url) -> Outcome)
    requires server != ""
    ensures Playback.Playback(PH(Example), FixtureEnv(server, archive)) == FixtureTelegraphLink
  {
    var env := FixtureEnv(server, archive);
    GitHubExamples.ExtractFixtureTelegraph(env.github, Example);
    assert IssueStage(env, Example, "telegraph") == Found(FixtureTelegraphLink);
    TelegraphLinkColons();
  }

  /** When the issue search is refused, the IPFS playback comes from the index, identifier whole. */
  lemma PlaybackRefusedIpfs(server: string, archive: (Service, Url) -> Outcome)
    requires server != ""
    ensures Playback.Playback(IP(Example), FixtureEnv(server, archive).(issues := RefusingService)) == FixtureIpfsLink
  {
    var env := FixtureEnv(server, archive).(issues := RefusingService);
    ExtractRefused(env.github, env.parse, Example, "ipfs");
    MeiliExamples.ExtractFixtureIpfs(server);
  }

  /** Refused issues and no index endpoint: the Telegraph playback is the disabled client's error. */
  lemma PlaybackRefusedUnindexed(archive: (Service, Url) -> Outcome)
    ensures Playback.Playback(PH(Example), FixtureEnv("", archive).(issues := RefusingService)) == Meili.DisabledText
  {
    var env := FixtureEnv("", archive).(issues := RefusingService);
    ExtractRefused(env.github, env.parse, Example, "telegraph");
    UnconfiguredIndex(PH(Example), env);
  }
}
