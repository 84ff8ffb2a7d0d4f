/**
 * Playback of one address from one archive (playback.go). Five archives are
 * asked through their own client packages; IPFS and Telegraph captures are
 * looked up in two stages, GitHub issues first and the Meilisearch index when
 * the issues have nothing.
 */
module Playback {
  import opened Http
  import opened Outcomes
  import GitHub
  import Meili

  /** The archives whose playback is delegated to another package. */
  datatype Service = InternetArchive | ArchiveToday | Ghostarchive | TimeTravel | GoogleCache

  /**
   * What a playback reads from outside: the configuration and reply of each
   * lookup stage, the address parser, and the delegated archive clients, each
   * giving a destination, `errNotFound` or another error for an address.
   */
  datatype Env = Env(
    github: GitHub.Config,
    issues: GitHub.IssueService,
    parse: GitHub.UrlParser,
    meili: Meili.Config,
    index: Meili.IndexService,
    archive: (Service, Url) -> Outcome)

  /** The `Playbacker` implementations: one per archive, each holding the address. */
  datatype Playbacker =
    | IA(url: Url)
    | IS(url: Url)
    | IP(url: Url)
    | PH(url: Url)
    | GA(url: Url)
    | TT(url: Url)
    | GC(url: Url)
  {
    /**
     * The `Playback` method of each implementation (playback.go:81-165): the
     * two-stage chain on the implementation's scope, or the rendered answer of
     * its own archive client.
     */
    function Playback(env: Env): (s: string)
      ensures Staged(this) ==> s == Fallback(IssueStage(env, url, Scope(this)), IndexStage(env, url, Scope(this)))
      ensures !Staged(this) ==> s == Render(env.archive(ServiceOf(this), url))
    {
      match this
      case IA(u) => Render(env.archive(InternetArchive, u))
      case IS(u) => Render(env.archive(ArchiveToday, u))
      case GA(u) => Render(env.archive(Ghostarchive, u))
      case TT(u) => Render(env.archive(TimeTravel, u))
      case GC(u) => Render(env.archive(GoogleCache, u))
      case IP(u) => Fallback(IssueStage(env, u, "ipfs"), IndexStage(env, u, "ipfs"))
      case PH(u) => Fallback(IssueStage(env, u, "telegraph"), IndexStage(env, u, "telegraph"))
    }
  }

  /** The two-stage implementations. */
  predicate Staged(p: Playbacker) {
    p.IP? || p.PH?
  }

  /** The scope both stages of a two-stage implementation search. */
  function Scope(p: Playbacker): (scope: string)
    requires Staged(p)
    ensures p.IP? ==> scope == "ipfs"
    ensures p.PH? ==> scope == "telegraph"
  {
    if p.IP? then "ipfs" else "telegraph"
  }

  /** The package each other implementation delegates to. */
  function ServiceOf(p: Playbacker): (s: Service)
    requires !Staged(p)
    ensures p.IA? <==> s == InternetArchive
    ensures p.IS? <==> s == ArchiveToday
    ensures p.GA? <==> s == Ghostarchive
    ensures p.TT? <==> s == TimeTravel
    ensures p.GC? <==> s == GoogleCache
  {
    match p
    case IA(_) => InternetArchive
    case IS(_) => ArchiveToday
    case GA(_) => Ghostarchive
    case TT(_) => TimeTravel
    case GC(_) => GoogleCache
  }

  /** The GitHub stage, configured as `newGitHub` reads its environment. */
  function IssueStage(env: Env, u: Url, scope: string): Outcome {
    GitHub.Extract(env.github, env.issues, env.parse, u, scope)
  }

  /** The Meilisearch stage, on the client `newMeili` builds. */
  function IndexStage(env: Env, u: Url, scope: string): Outcome {
    Meili.Extract(Meili.NewMeili(env.meili), env.index, u, scope)
  }

  /** The issue stage gives way to the index: it found nothing, or an empty destination. */
  predicate FallsThrough(issue: Outcome) {
    issue.NotFound? || issue == Found("")
  }

  /**
   * The two-stage chain (playback.go:114-144): an error other than `errNotFound`
   * from the issues is shown at once, a destination from them is the answer,
   * and otherwise the index's answer is shown, whatever it is.
   */
  function Fallback(issue: Outcome, index: Outcome): (s: string)
    ensures issue.Failed? ==> s == issue.text
    ensures issue.Found? && issue.dst != "" ==> s == issue.dst
    ensures FallsThrough(issue) ==> s == Render(index)
  {
    match issue
    case Failed(t) => t
    case Found(d) => if d != "" then d else Render(index)
    case NotFound => Render(index)
  }

  /** The index's answer makes a difference exactly when the issue stage falls through. */
  lemma IndexMattersIff(issue: Outcome)
    ensures (forall a, b :: Fallback(issue, a) == Fallback(issue, b)) <==> !FallsThrough(issue)
  {
    if FallsThrough(issue) {
      assert Fallback(issue, Found("a")) != Fallback(issue, Found("b"));
    }
  }

  /** `Playback` (playback.go:167-169): the implementation's own `Playback`. */
  function Playback(p: Playbacker, env: Env): (s: string)
    ensures Staged(p) ==> s == Fallback(IssueStage(env, p.url, Scope(p)), IndexStage(env, p.url, Scope(p)))
    ensures !Staged(p) ==> s == Render(env.archive(ServiceOf(p), p.url))
  {
    p.Playback(env)
  }

  /** An issue-stage error other than `errNotFound` is what a two-stage playback shows. */
  lemma IssueFailureShown(p: Playbacker, env: Env)
    requires Staged(p) && IssueStage(env, p.url, Scope(p)).Failed?
    ensures Playback(p, env) == IssueStage(env, p.url, Scope(p)).text
  {
  }

  /** A link from the issues is what a two-stage playback shows. */
  lemma IssueLinkShown(p: Playbacker, env: Env)
    requires Staged(p) && IssueStage(env, p.url, Scope(p)).Found?
    ensures Playback(p, env) == IssueStage(env, p.url, Scope(p)).dst
    ensures Playback(p, env) != ""
  {
  }

  /** When the issues have no link, a two-stage playback shows the index's answer. */
  lemma IndexAnswerShown(p: Playbacker, env: Env)
    requires Staged(p) && IssueStage(env, p.url, Scope(p)).NotFound?
    ensures Playback(p, env) == Render(IndexStage(env, p.url, Scope(p)))
  {
  }

  /** When the issue stage does not fall through, the index is never consulted. */
  lemma IndexNotConsulted(p: Playbacker, env: Env, meili: Meili.Config, index: Meili.IndexService)
    requires Staged(p) && !FallsThrough(IssueStage(env, p.url, Scope(p)))
    ensures Playback(p, env.(meili := meili, index := index)) == Playback(p, env)
  {
    var env2 := env.(meili := meili, index := index);
    assert IssueStage(env2, p.url, Scope(p)) == IssueStage(env, p.url, Scope(p));
    IndexMattersIff(IssueStage(env, p.url, Scope(p)));
    assert Fallback(IssueStage(env, p.url, Scope(p)), IndexStage(env2, p.url, Scope(p))) ==
      Fallback(IssueStage(env, p.url, Scope(p)), IndexStage(env, p.url, Scope(p)));
  }

  /** With no Meilisearch endpoint, an address without an issue link plays back as the disabled client's error. */
  lemma UnconfiguredIndex(p: Playbacker, env: Env)
    requires Staged(p) && env.meili.endpoint == ""
    requires IssueStage(env, p.url, Scope(p)).NotFound?
    ensures Playback(p, env) == Meili.DisabledText
  {
  }

  /** Neither stage plays any part in the delegated implementations. */
  lemma DelegatedIgnoresStages(p: Playbacker, env: Env, github: GitHub.Config, issues: GitHub.IssueService,
                               meili: Meili.Config, index: Meili.IndexService)
    requires !Staged(p)
    ensures Playback(p, env.(github := github, issues := issues, meili := meili, index := index)) == Playback(p, env)
  {
  }

  /** An empty two-stage playback comes from an empty error text or from an empty index destination. */
  lemma EmptyPlayback(p: Playbacker, env: Env)
    requires Staged(p) && Playback(p, env) == ""
    ensures IssueStage(env, p.url, Scope(p)) == Failed("") ||
      (FallsThrough(IssueStage(env, p.url, Scope(p))) &&
       IndexStage(env, p.url, Scope(p)) in {Found(""), Failed("")})
  {
    var issue := IssueStage(env, p.url, Scope(p));
    var index := IndexStage(env, p.url, Scope(p));
    if !issue.Failed? {
      assert FallsThrough(issue);
      assert Render(index) == "";
      assert NotFoundText != "";
    }
  }
}
