# wabarc/playback: the resolution core in Dafny

The package plays back an address, meaning it finds where that address has been archived. It does this one archive at a time.

- **Delegated archives.** Four archives are asked through their own client packages: Internet Archive, archive.today, Ghostarchive and Time Travel. Google Cache is asked through `newGoogle().cache`, which lives in google.go of this same package. The answer is shown either as the destination or as the text of the error.
- **IPFS and Telegraph.** These captures are looked up in two stages:
  1. Search the newest GitHub issue that mentions the address, and take the first link of the right kind from its body.
  2. Only when that finds nothing, look the address up in a Meilisearch index of earlier captures.

The model covers all of this:

- the outcome of each stage;
- the fallback chain and the dispatch over the seven `Playbacker` implementations;
- the two hand-coded link patterns, with Go `regexp` leftmost-first semantics;
- issue-body extraction over decoded JSON;
- the construction of both search requests;
- the Meilisearch client configuration;
- `strings.TrimLeft` with Go's cutset semantics.

The model takes every remote party as a parameter: the search services, the delegated archive clients, `url.Parse`/`String` and `helper.IsURL`. Environment variables become configuration records.

Modules:

- `Wrappers`: `Option` and `Result`.
- `Http`: a request, a reply and header lookup.
- `Json`: decoded JSON values.
- `Outcomes`: a stage's `(string, error)` result. It is `Found`, `NotFound` (the package's `errNotFound`) or `Failed`.
- `Patterns`: the IPFS and Telegraph matchers and `FindAllString`.
- `GitHub`: github.go.
- `Meili`: meilisearch.go.
- `Playback`: playback.go.
- `PatternExamples`, `GitHubExamples`, `MeiliExamples` and `PlaybackExamples`: the repository's test fixtures, stated as lemmas on the model.

`matchLink` and `collects` loop in the source, so they are methods with loop invariants. `MatchLink` is proved against the function `FirstLink`, which `Extract` uses. Everything else is pure in the source and is pure here.

Behaviour of the code worth knowing:

- **The GitHub query.** The query is the input's full `String()`, scheme included, followed by `+archived`.
- **Long IPFS identifiers.** The IPFS pattern has no boundary after `\w{46}`. A 47-character or longer identifier is therefore matched and cut to its first 46 characters. The fixture's 59-character identifier shows this.
- **The GitHub status code.** The GitHub stage never reads the status code. A refused search (403) is parsed like a result, and it yields `errNotFound`, not an error.
- **The Meilisearch query.** The scheme is removed with cutset semantics. `https://example.com` is searched as `"://example.com"`, with the `://` left in.

## Model

| member | source | states |
|---|---|---|
| Patterns.LitAtChars | github.go:59-61 | a pattern literal matches at a position exactly when every character matches its letter in any case, including the folds U+017F for `s` and U+212A for `k` |
| Patterns.SchemesExclusive | github.go:59-61 | `https://` and `http://` with the same host never both start at one position, since the fifth character is `s` for one and `:` for the other |
| Patterns.SchemeEnd | github.go:59-61 | the prefix match ends `8 + |host|` past the start exactly when `https://` and the host are there, `7 + |host|` past it exactly when `http://` and the host are there, and fails exactly when neither is; since the two exclude each other, the greedy order of `s?` cannot change the result |
| Patterns.SlugEnd | github.go:61 | its own contract only bounds the end (at least six past the slug start, within the text); `SlugEndSpec` and `SlugEndAtFirstDate` give its meaning |
| Patterns.SlugEndSpec | github.go:61 | the lazy `.+?` stops at a `-DD-DD` with no newline and no earlier date before it; it fails only when every later date is preceded by a newline |
| Patterns.SlugEndAtFirstDate | github.go:61 | the first date after the slug start, with no newline before it, is where the lazy slug ends |
| Patterns.MatchAt | github.go:59-61 | a match that starts at a position ends after it and within the text |
| Patterns.NextMatch | github.go:80 | the next match from a position starts at or after it, and `MatchAt` there gives its end |
| Patterns.NextMatchIsLeftmost | github.go:80 | no match starts between the search position and the match found; when none is found, no match starts anywhere from the position to the end |
| Patterns.MatchAtIsLink | github.go:59-61 | a match from `i` to `e` exists exactly when `s[i..e]` is a whole link: for IPFS the prefix and exactly 46 word characters; for Telegraph the prefix, a slug without newline, and the first date after it |
| Patterns.MatchNeedsColon | github.go:59-61 | every match has a `:` four or five characters after its start |
| Patterns.NoColonNoMatch | github.go:59-61 | a stretch of text without colons holds no match start |
| Patterns.SkipNoMatch | github.go:80 | positions where no match starts do not change the next match |
| Patterns.FindAll | github.go:80 | `FindAllString` returns nothing exactly when no match starts from the position on, and at most one string per remaining character; `FindAllAreLinks`, `FirstIsLeftmost` and `LinkMatchesItself` give what it returns |
| Patterns.FindAllAreLinks | github.go:80 | every string `FindAllString` returns is a whole link of the pattern |
| Patterns.FirstIsLeftmost | github.go:80 | the first string returned is the leftmost link: no link of the text starts before it |
| Patterns.LinkMatchesItself | github.go:59-61 | matching a link on its own gives exactly that link back (matching is idempotent) |
| PatternExamples.FixtureIpfsMatch | playback_test.go:69 | the IPFS pattern finds one link in the fixture body, with the 59-character identifier cut to 46 characters |
| PatternExamples.FixtureTelegraphMatch | playback_test.go:69 | the Telegraph pattern finds exactly `https://telegra.ph/Example-01-01` in the fixture body |
| PatternExamples.TelegraphNeedsDate | github.go:61 | a Telegraph address without the date suffix is no link |
| PatternExamples.IpfsShortIdRejected | github.go:59 | a 45-character identifier is not matched |
| GitHub.PatternFor | github.go:57-62 | scope "ipfs" selects the IPFS pattern and every other scope selects the Telegraph pattern |
| GitHub.SearchUrl | github.go:31-36 | the search URL is the endpoint, then the input, then the `+repo:` filter only when a repository is set, then `+archived` at the end |
| GitHub.RepoFilter | github.go:32-34 | the filter is empty exactly when no repository is set, and otherwise is `+repo:` followed by that repository |
| GitHub.SearchRequest | github.go:36-40 | a GET of the search URL with no body; Accept is the v3 media type; `Authorization: token <pat>` is present exactly when the token is non-empty |
| GitHub.SearchUrlInjective | github.go:31-36 | under one configuration, equal search URLs come from equal inputs |
| GitHub.Fetch | github.go:30-54 | a transport failure is an error carrying its text; any response, whatever its status, yields its body |
| GitHub.StatusIgnored | github.go:42-53 | two responses with the same body give the same result, whatever their status |
| GitHub.ParseIssue | github.go:103-130 | the result is the body exactly when the data is an object whose `items` is a non-empty array whose first element is an object with a string `body`; for every other shape it is "" |
| GitHub.FirstLink | github.go:78-88 | "" when no candidate parses; otherwise the parse of a candidate before which no candidate parses |
| GitHub.MatchLink | github.go:78-88 | the loop returns `FirstLink` of the pattern's matches, in order |
| GitHub.Extract | github.go:56-76 | it fails exactly when the request fails, with the request's error; it is `errNotFound` exactly when the request succeeds and no match parses; it finds a destination exactly when the request succeeds and some match parses, and that destination is non-empty and is the first parseable match |
| GitHub.FoundIsLinkOfScope | github.go:56-88 | a found destination is the parse of a match in the issue body, and that match is a whole link of the scope's kind |
| GitHub.Collects | github.go:91-101 | the keys are exactly the inputs `IsURL` accepts, so duplicates collapse, and each key maps to itself |
| GitHubExamples.FixtureBodyParsed | playback_test.go:50-75 | the fixture search reply yields the fixture issue body |
| GitHubExamples.ExtractFixtureIpfs | playback_test.go:150-176 | on the fixture, the IPFS scope finds the `ipfs.io` link, cut to 46 identifier characters |
| GitHubExamples.ExtractFixtureTelegraph | playback_test.go:178-203 | on the fixture, the Telegraph scope finds `https://telegra.ph/Example-01-01` |
| GitHubExamples.ExtractFixtureUnparsable | github.go:78-88 | matches that do not parse count as no link: `errNotFound` |
| GitHubExamples.ExtractRefused | github.go:42-53 | a 403 reply without `items` gives `errNotFound`, not an error |
| Meili.IndexName | meilisearch.go:36-38 | the configured index, or "capsules" when none is set; never empty |
| Meili.NewMeili | meilisearch.go:32-47 | disabled exactly when the endpoint is ""; the search address `<endpoint>/indexes/<index>/search` is formed even then; the key is kept |
| Meili.DefaultIndexingExplicit | meilisearch.go:22 | leaving the index unset and naming "capsules" give the same client |
| Meili.SearchAddressInjective | meilisearch.go:40 | with one endpoint, equal search addresses mean equal index names |
| Meili.Params | meilisearch.go:55-67 | `q` is the term between double quotes; limit 1; sort `["id:desc"]`; matches true; attributes `["ip","ph"]` |
| Meili.SearchRequest | meilisearch.go:68-77 | a POST of those parameters to the client's address with a JSON content type; `Authorization: Bearer <key>` is present exactly when the key is non-empty |
| Meili.Fetch | meilisearch.go:49-95 | a disabled client gives "meilisearch disabled"; a transport failure gives its text; a status other than 200 gives the status line; a 200 gives the body |
| Meili.DisabledIsOffline | meilisearch.go:49-52 | a disabled client's result does not depend on the index service |
| Meili.TrimLeft | meilisearch.go:110 | its own contract only says the result is no longer than the input; `TrimLeftSpec` gives its meaning |
| Meili.TrimLeftSpec | meilisearch.go:110 | the result is a suffix of the input; every removed character is in the cutset; the result does not start with a cutset character (the longest such prefix is removed) |
| Meili.TrimLeftIdempotent | meilisearch.go:110 | trimming twice is trimming once |
| Meili.TrimLeftPrefix | meilisearch.go:110 | a prefix made of cutset characters is removed whatever follows it |
| Meili.SchemeTrimmed | meilisearch.go:110 | for `scheme:rest` with the scheme as cutset, exactly `:rest` remains |
| Meili.Extract | meilisearch.go:97-134 | it fails exactly on a request error or an undecodable reply, carrying that error's own text (for a disabled client, "meilisearch disabled"); zero hits or an unknown scope give `errNotFound`; "ip"/"ipfs" give the first hit's `ip` and "ph"/"telegraph" its `ph`, even when empty |
| Meili.SearchedTerm | meilisearch.go:110-111 | the index is searched for `":rest"` as a quoted phrase |
| MeiliExamples.ExampleTerm | meilisearch.go:110 | `https://example.com` is searched as `"://example.com"` |
| MeiliExamples.ExtractFixtureTelegraph | playback_test.go:222-246 | on the fixture reply, the Telegraph scope gives `https://telegra.ph/Example-01-01` |
| MeiliExamples.ExtractFixtureIpfs | meilisearch.go:126-128 | on the fixture reply, "ip" and "ipfs" give the whole 80-character `ip` field |
| MeiliExamples.ExtractFixtureOtherScope | meilisearch.go:126-133 | an unknown scope gives `errNotFound` despite a hit |
| MeiliExamples.ExtractUnconfigured | meilisearch.go:49-52 | without an endpoint every lookup fails with "meilisearch disabled" |
| MeiliExamples.ExtractServerError | meilisearch.go:85-87 | a 500 reply fails with its status line |
| Playback.Scope | playback.go:114-144 | `IP` searches "ipfs" at both stages and `PH` searches "telegraph" at both |
| Playback.ServiceOf | playback.go:146-165 | each delegated implementation goes to its own archive client (TT to Time Travel, GC to Google Cache, and likewise IA, IS, GA) |
| Outcomes.Render | playback.go:81-165 | what a playback shows for a stage result: the destination on success, "Not found" for `errNotFound`, and the error's own text for any other failure |
| Playback.Playbacker.Playback | playback.go:81-165 | each implementation's `Playback`: `IP` and `PH` give the two-stage chain's answer on their scope, and the other five show the rendered answer of their own archive client |
| Playback.Fallback | playback.go:114-144 | an issue-stage error other than `errNotFound` is shown; a non-empty issue link is shown; otherwise the index stage's answer is shown, its value even when empty, or its error text |
| Playback.IndexMattersIff | playback.go:120-122 | the index result changes the answer exactly when the issue stage found nothing or found "" |
| Playback.Playback | playback.go:167-169 | the implementation's own playback: the two-stage chain for `IP`/`PH` with their scope, and the delegated rendering otherwise |
| Playback.IssueFailureShown | playback.go:115-119 | an issue-stage failure is what IP/PH show |
| Playback.IssueLinkShown | playback.go:115-127 | an issue-stage link is shown unchanged, and it is non-empty |
| Playback.IndexAnswerShown | playback.go:120-127 | when the issues find nothing, IP/PH show the index stage's answer |
| Playback.IndexNotConsulted | playback.go:114-128 | when the issue stage does not fall through, the index configuration and service do not affect the answer |
| Playback.UnconfiguredIndex | playback.go:120-125 | with no index endpoint and no issue link, the answer is "meilisearch disabled" |
| Playback.DelegatedIgnoresStages | playback.go:81-112 | the delegated implementations do not depend on either search stage |
| Playback.EmptyPlayback | playback.go:114-128 | an empty IP/PH answer comes only from an empty error text or from an index stage that gave "" |
| PlaybackExamples.PlaybackFixtureIpfs | playback_test.go:93-147 | against both fixtures, `IP` plays back the issue's IPFS link, which is non-empty |
| PlaybackExamples.PlaybackFixtureTelegraph | playback_test.go:93-147 | against both fixtures, `PH` plays back `https://telegra.ph/Example-01-01` |
| PlaybackExamples.PlaybackRefusedIpfs | playback.go:120-127 | when the issue search is refused, `IP` plays back the index's link with its whole identifier |
| PlaybackExamples.PlaybackRefusedUnindexed | playback.go:136-143 | with refused issues and no index endpoint, `PH` shows "meilisearch disabled" |

## Left out

- google.go belongs to this package, but its `cache` and `request` are not modelled. They only send a request, check the status and read the redirect target, which is transport. `GC` reaches them through the `archive` parameter, with `GoogleCache` as the service; `errGCNotFound` (google.go:19) would be a `Failed("Not found")` there, since it is not `errNotFound`.
- cmd/playback/main.go is not part of this model. It handles flag parsing, usage text and exit codes.
- The delegated clients are parameters: the foreign packages `ia`, `is`, `ga` and `memento`, and google.go's `cache`. The model does not say what they return.
- HTTP transport, reading the body, and context cancellation are not modelled. A reply is given data, and a failed body read counts as a transport error.
- Both `request` functions ignore the error of `http.NewRequestWithContext` (github.go:36, meilisearch.go:73), and the model always builds the request. That call fails when the URL does not parse. For GitHub the URL also carries the input address and `PLAYBACK_GITHUB_REPO`; for Meilisearch it is the configured endpoint and index. The source would then use a nil request and panic, and that is not modelled.
- The `json.Marshal` error path of the Meilisearch request (meilisearch.go:68-71) is left out: the parameters are strings, an int, a bool and string slices, which always encode.
- JSON encoding and decoding are not modelled. Replies arrive decoded: `Option<Json>` for the GitHub map, where `None` means a decode error, and `Hits` or `Undecodable` for Meilisearch.
- `url.Parse` followed by `String()` is the parameter `parse`, and `helper.IsURL` is the parameter `isURL`. Their behaviour is not modelled.
- The request URL is modelled as the concatenated string, and it is never parsed. Characters such as `&` or `#` in the input therefore stay in the query text.
- The general Go `regexp` engine is not modelled; only the two fixed patterns are hand-coded. Case folding covers ASCII letters plus U+017F and U+212A, which are the only non-ASCII folds of the pattern's letters.
- Environment reads are configuration records, not `os.Getenv` calls.
- The `DEBUG` toggle and all logging are left out, because they have no effect on results.
- The `Collect` record (playback.go:35-40) is declared but not used. It is not modelled.
- Collects: the model gives only the method. No lemma runs it on concrete links, because a lemma cannot call a method. The method's postcondition determines the whole map.
