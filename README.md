# stash-clone-project, modelled in Dafny

`stash-clone-project` is a small interactive command-line tool for a Stash
(Bitbucket Server) host. It asks for a password, lists the account's projects,
lets the user pick one by its label, lists that project's repositories, lets
the user tick some of them and name a destination folder, and runs
`git clone` for each ticked repository inside that folder.

This project models the logic of `index.js` that does not depend on a human or
on the operating system:

- `Paging` — the paged collection fetch that `getProjects` and `getRepos`
  share. It is written once, generic over the per-item transform, with a flag
  for the "No results" check that only the projects fetch has. The server is
  a function from the `start` offset to its response. `Fetch` is the
  reference definition of the do-while loop over `lastData`. `PagedFetch` is
  the loop itself, with an accumulator and an inner loop (`PushAll`) that
  pushes the transformed values, and it is proved equal to `Fetch`. The lemmas describe
  a fetch through the offsets it requested:
  - the first request uses offset 0, and each later one uses the previous
    page's `nextPageStart || 0`;
  - another request follows an accepted page only when its `isLastPage` is
    exactly `false`; after the first page, an error page whose first message
    is empty is requested again at the same offset;
  - the delivered list is the concatenation of every accepted page's
    transformed values, in order; a page with `errors` contributes nothing,
    even when it carries `values`;
  - a failing page is always the last one requested;
  - a fetch that finishes gives the same result under any larger request
    bound.
- `Catalog` — project and repository records, the project label
  `key (name)` with its parse-back, and the two concrete fetches.
- `Selection` — the project lookup by label (the first match, or none) and the
  filter of ticked repositories.
- `Cloning` — lower-casing of the project key and the clone URL: SSH-built
  or the server's URL. The `forEach` of `cloneRepos` is modelled as a loop
  that produces one URL per selected repository.
- `Paths` — the `~` replacement in the destination path.
- `Endpoints` — the root URL and the two endpoint URLs (see Findings).
- `Session` — the whole wizard. The answers are parameters, and every
  `process.exit()` becomes an outcome.

The model follows `index.js` as written:
- the project key is lower-cased before it enters an SSH clone URL, so key
  `TEAM` gives `ssh://git@example.com/team/widgets.git`;
- an empty repository list does not stop the program;
- the "No results" check applies to every page of the projects fetch, not
  only the first;
- an error whose first message is empty (or missing) is falsy for the finish
  callback. On the first page the fetch then ends with an empty list
  (`EmptyMessageFirstPage`). On a later page the same offset is requested
  again, and as long as the server answers that offset the same way the loop
  never ends (`SkipForever`).
- Two malformed pages throw a TypeError, which the model represents as
  `Crash`: an `errors` array with no entries, and a repositories page without
  `values`.

## Model

| member | source | states |
|---|---|---|
| `Paging.Judge` | index.js:194-217 | a page with `errors` never contributes values; an accepted page has no errors, carries its `values` unchanged, continues iff `isLastPage` is exactly false, and with the projects check is never empty |
| `Paging.JudgeCases` | index.js:194-217 | the verdict on every kind of response: a transport error halts with its reason; `errors` with no entry crashes; a non-empty first message aborts with it; an empty first message is skipped; with the projects check a page with missing or empty `values` aborts with "No results"; without it a missing `values` crashes; every other page is accepted with its `values`, `isLastPage === false` and `nextPageStart` |
| `Paging.PagedFetch` | index.js:131-169 | the do-while over `lastData` with its accumulator returns exactly the outcome and the request offsets of the reference fetch `Fetch` (the recursive `Loop` from `lastData = {}`), which the `Fetch` lemmas below characterise |
| `Paging.PushAll` | index.js:148-154 | the handler's `for` loop leaves the list followed by every value of the page, transformed, in page order |
| `Paging.FetchOffsets` | index.js:157-169 | the first request asks for offset 0; each later one asks for the previous page's `nextPageStart` (0 when absent), after a page whose `isLastPage` was exactly false, or for the same offset after a skipped error page; at most `fuel` requests |
| `Paging.FetchContinuation` | index.js:214-226 | a further request follows page i if and only if that page continues the loop (an accepted page whose `isLastPage` is exactly false, or, after the first page, an error page whose first message is empty) and the request bound is not reached |
| `Paging.FetchAccumulates` | index.js:148-154 | a fetch that ends with a list delivers the concatenation, in request order, of every accepted page's values each mapped once, and it ended on a page that neither failed nor asked for more |
| `Paging.FetchFailure` | index.js:171-176 | a fetch that fails, other than by the request bound, fails with its last page's reason |
| `Paging.FetchHaltsLast` | index.js:196-200 | no page before the last requested one halted the fetch |
| `Paging.FetchServerError` | index.js:196-197 | a requested page whose first error message is non-empty is the last request, and the fetch aborts with that message and no list |
| `Paging.FetchEmptyPage` | index.js:198-200 | with the projects check, any page without values (not only the first) is the last and aborts with "No results"; without it an empty page adds nothing and a missing `values` crashes |
| `Paging.FetchFuelIndependent` | index.js:133-177 | a fetch that ends within its request bound ends identically under every larger bound |
| `Paging.TwoPageScenario` | index.js:185-226 | two items with `isLastPage: false, nextPageStart: 2`, then one item with `isLastPage: true`, give three items from exactly the requests at offsets 0 and 2 |
| `Paging.EmptyMessageFirstPage` | index.js:143-145 | an error page whose first message is empty, as the first page, ends the fetch with an empty list after one request, whatever else the page holds |
| `Paging.SkipForever` | index.js:143-169 | after a page that asked for more, an error page whose first message is empty is requested again at the same offset, request after request, and the loop stops only at the request bound |
| `Paging.LoopStep` | index.js:157-168 | one turn of `Loop` either continues from the new `lastData` with this page's items in front, or settles on this page |
| `Catalog.DisplayRoundTrip` | index.js:209 | `Display`: a label `key (name)` built from a key without spaces reads back as that key and name |
| `Catalog.DisplayInjective` | index.js:209 | two projects whose keys hold no space and whose labels are equal have equal keys and names |
| `Catalog.GetProjects` | index.js:180-235 | the projects fetch is the paged fetch with the "No results" check and the record `ToProject` (index.js:205-210), and every fetched project's `display` is its key and name label |
| `Catalog.GetRepos` | index.js:128-178 | the repositories fetch is the paged fetch without the emptiness check, each value mapped by `ToRepo` (index.js:150-153) to its name and server clone URL |
| `Selection.FilterCounts` | index.js:64-68 | `Filter` (JavaScript's `filter`) keeps every accepted element exactly as often as it occurs, and nothing else |
| `Selection.FilterOrdered` | index.js:64-68 | `Filter` keeps the order of its input (the result is a subsequence) |
| `Selection.FirstLabelled` | index.js:39-41 | the index of the first project with the given label, with no earlier match, or the length when none matches |
| `Selection.FindProject` | index.js:39-47 | no project is found if and only if no label equals the answer; otherwise the result is the first project whose label equals it |
| `Selection.SelectRepos` | index.js:64-68 | the selected repositories are exactly those whose name was ticked, each with its multiplicity, in their listed order |
| `Cloning.Lower` | index.js:73 | lower-casing keeps the length, maps each upper-case ASCII letter to its lower-case letter (32 code points on), and changes no other character |
| `Cloning.LowerIdempotent` | index.js:73 | lower-casing twice equals lower-casing once |
| `Cloning.CloneUrl` | index.js:102-111 | with an SSH account the URL is `ssh://account@host/key/name.git` (built by `Join`, JavaScript's `join`, of the parts with `/`); otherwise the server's clone URL unchanged |
| `Cloning.CloneRepos` | index.js:99-115 | one URL per selected repository, in selection order |
| `Cloning.SshScenario` | index.js:73 | account `git`, host `example.com`, key `TEAM`, repository `widgets` give `ssh://git@example.com/team/widgets.git` |
| `Paths.ExpandHomeSplits` | index.js:84 | `ExpandHome`: the first `~`, wherever it stands, is replaced by the home directory; a path without `~` is unchanged |
| `Paths.ExpandHomeReplacesOne` | index.js:84 | when the home directory has no `~`, exactly one `~` disappears from a path that had one |
| `Endpoints.RootUrlAsWrittenLosesHost` | index.js:11 | `RootUrlAsWritten`, the expression as written: with `https` set the root URL is the bare word `https`, with no host or API path; without `https` it is the API base |
| `Endpoints.RootUrl` | index.js:11 | the corrected root URL is `scheme://host/rest/api/1.0/` for either scheme, and it agrees with the written one when `https` is off |
| `Endpoints.ReposEndpointInjective` | index.js:136 | `ReposEndpoint`: different project keys name different repositories endpoints |
| `Session.CloneSession` | index.js:24-80 | a failed projects fetch halts with its reason; no matching label stops before any repository request; otherwise the session fetches the chosen key's repositories, and a failure halts; on success it yields the expanded destination and one clone URL per ticked repository, using the lower-cased key |

## Findings

| source | as written | input that shows it | evidently intended | confidence | as-written member | corrected member |
|---|---|---|---|---|---|---|
| index.js:11 | `config.https ? 'https' : 'http' + '://' + config.host + '/rest/api/1.0/'` groups the concatenation into the `http` branch only | `config.https = true`: the root URL is `https`, and the projects endpoint becomes `httpsprojects` | the scheme chosen by `config.https`, followed by `://host/rest/api/1.0/` | high (not executed) | `Endpoints.RootUrlAsWrittenLosesHost` | `Endpoints.RootUrl` |

## Left out

- Interactive prompts (password, project list, repository checkboxes, destination): the answers are parameters of `Session.CloneSession`. The console messages are not modelled.
- HTTP through the REST client, including Basic authentication with the configured user name and password. Responses are a pure function of the endpoint URL and the offset, so a server whose answers change between requests is not modelled. A transport error is the `Unreachable` response, and its message printing is left out.
- JSON typing: project ids are integers, and keys, names and clone URLs are strings. An `isLastPage` that is not a boolean behaves like an absent one, which is what `=== false` does. An `errors` entry without `message` is written as the empty message, since both are falsy.
- `PagedFetch`: the number of requests is bounded by `fuel`. A server that announces further pages forever makes the source loop forever, and the model ends with `OutOfFuel` instead. `FetchFuelIndependent` shows that a run which finishes does not depend on the bound.
- File-system work in `prepFs` (exists check, one-level `mkdir`, the directory check, `chdir`) and its exits: operating-system state. The model keeps only the expanded path it is given.
- `cloneRepo`: the `git clone` subprocess, its output and its error logging. These calls are not awaited in the source, so clones run concurrently. The model keeps only the sequence of URLs handed over.
- `process.exit()` becomes an `Outcome` of the session or a `Failure` of a fetch.
- Loading `config.json`: the configuration is a parameter.
- `getUserHome` reads environment variables: the home directory is a parameter.
- Cloning.Lower: only ASCII letters are lower-cased. JavaScript's `toLowerCase` also maps other Unicode letters.
- Paths.ExpandHome: `$` patterns in the replacement string (such as `$&`), which JavaScript's `replace` would interpret inside the home directory, are not modelled. The home directory is inserted literally.
- `Session.CloneSession` builds endpoints from the corrected `Endpoints.RootUrl`, not from the written expression (see Findings).
