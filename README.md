# strap-core membership resolution, in Dafny

strap-core is a small NestJS gateway that serves a developer-bootstrap script
(`strap.sh`) and a profile page. A user signs in with GitHub OAuth. The gateway then
checks which of the configured GitHub organizations and teams the user belongs to.
A team counts when the user is in it or in any team below it. It also checks whether
the user's GitHub login is an Artifactory user, and which configured Artifactory
groups that user is in. From these answers it renders the profile page or the script
(with the slugs of the user's teams, comma-separated).

This project models that core and proves what it promises:

- `Utils` (`get_all.dfy`): `getAll`, the order-preserving, fail-fast batch.
- `GitHubSource` (`github_source.dfy`): the GitHub API as one value per access
  token, and the batch lookups. It also covers the `html_url` rewrite of `getTeam`
  and the level-by-level expansion of a team into its descendants. That expansion
  is compared with an independent depth-first walk (`Forest`) and with
  reachability along child edges (`Reaches`).
- `GitHubService` (`github_service.dfy`): credentials, organization and team
  membership, and the two index-aligned info tables. `GitHubServiceExamples`
  holds worked examples: a grandchild team counts for the root team, the
  organization table keeps the configured order, and a diamond hierarchy lists
  the shared team twice.
- `ArtifactoryService` (`artifactory_service.dfy`): `isUser`, `isInGroup`,
  `isInGroups`, `baseUrl`.
- `Sessions` (`session.dfy`): the session (`token`, `redirectTo`) as a class that
  the handlers update in place, JavaScript truthiness of an optional string, and
  the ways a handler answers.
- `AppController` (`app_controller.dfy`): `root` and `callback`. Each is a
  method on the session, proved equal to a pure function of what the two APIs
  answer (`ProfilePage`, `CallbackResponse`), with lemmas about the gating and
  the error classification.
- `StrapShService` (`strap_service.dfy`): `removeShebang`, the first match of
  `#!\/bin\/.+\n\n?` cut out of the script. It is proved against a
  pattern-level statement of what the regular expression matches.
- `StrapShController` (`strap_controller.dfy`): `getScriptData`, the
  constructor's settings, and `download`/`preview`.
- `ConfigService` (`config_service.dfy`): the configuration record,
  `throwOnErrorGuard`, the `isConfig` field rules, and the composition of
  environment defaults with the config file.

The remote APIs are inputs:

- What GitHub answers for a token is a `GitHubApi` value. It holds the user, the
  user's organizations and teams, and tables of organizations, teams and direct
  children by key; a missing key is a 404.
- What Artifactory answers is a `Directory`, a table from username to a user
  record or an error; a missing name means the user does not exist.
- File contents, environment variables and the result of the OAuth code
  exchange are parameters too.

In three places the model follows the code where a reader might expect otherwise:

- The expansion of a team keeps duplicates. It is not a union.
- `isUser` answers false for every failed lookup, not only for a missing user.
- `isInGroup` does not catch lookup failures.

## Model

| member | source | states |
|---|---|---|
| `Utils.GetAll` | src/utils/get-all.ts:6 | Succeeds iff every call succeeds; then one result per id, the i-th being the getter's result for the i-th id (so `[]` gives `[]`); otherwise the error is that of a failing call with only successes before it |
| `ArrayOps.FlattenMembership` | src/github/github-source.ts:92 | An element is in the concatenation of the child lists iff it is in one of them |
| `ArrayOps.SplitJoin` | src/strap.sh/strap.sh.controller.ts:58-61 | Joining non-empty lists of separator-free strings with `,` loses nothing: splitting at the separator gives the list back |
| `GitHubSource.GetOrganizations` | src/github/github-source.ts:46-49 | Succeeds iff every login resolves; one organization per login, in input order |
| `GitHubSource.GetTeam` | src/github/github-source.ts:51-61 | Succeeds iff the id resolves; `htmlUrl` becomes `https://github.com/orgs/<org login>/teams/<slug>` and every other field is as fetched |
| `GitHubSource.TeamUrlIdentifies` | src/github/github-source.ts:58 | Two rewritten links are equal only for the same organization login and slug (logins hold no `/`) |
| `GitHubSource.GetTeams` | src/github/github-source.ts:63-66 | Succeeds iff every id resolves; one team per id, in input order, each as `getTeam` returns it |
| `GitHubSource.ChildTeamsRecursively` | src/github/github-source.ts:87-101 | On success the input teams are a prefix of the result; a team whose children cannot be fetched fails the expansion |
| `GitHubSource.GetAllChildTeams` | src/github/github-source.ts:107-110 | Fails with not-found for an unknown id; on success the first element is the team `getTeam` fetched |
| `GitHubSource.LeavesExpandToThemselves` | src/github/github-source.ts:96-100 | When no input team has children, the expansion is the input itself |
| `GitHubSource.ExpansionUnfolds` | src/github/github-source.ts:89-97 | With children, the expansion is the input followed by the expansion of all direct children concatenated in input order (or that expansion's error) |
| `GitHubSource.ExpansionIsForest` | src/github/github-source.ts:87-101 | The level-by-level expansion holds exactly the teams of the depth-first walk, each as many times (no deduplication) |
| `GitHubSource.ExpansionIsReachable` | src/github/github-source.ts:83-101 | A team is in the expansion iff it is reachable from an input team along direct-child edges (a team reaches itself) |
| `GitHubService.GetUserCredentials` | src/github/github.service.ts:26-33 | Fails iff the user cannot be fetched; otherwise exactly name, email and login as gitName, gitEmail, gitHubUser |
| `GitHubService.IsInOrganization` | src/github/github.service.ts:39-42 | Fails iff the user's organizations cannot be fetched; otherwise true iff one of them has that login |
| `GitHubService.IsInOrganizations` | src/github/github.service.ts:72-74 | One flag per login, index-aligned with the input, each equal to `isInOrganization` of that login |
| `GitHubService.GetOrgInfo` | src/github/github.service.ts:84-97 | One row per configured login, in order, with that organization's name and page link and `isInOrganization` as `isMember`; fails iff a login does not resolve or (for a non-empty list) the memberships cannot be fetched |
| `GitHubService.Ids` | src/github/github.service.ts:56-59 | The ids of the teams, index by index |
| `GitHubService.IsInTeam` | src/github/github.service.ts:50-70 | Fails iff the user's teams or the expansion fail; otherwise true iff a user team's id is the asked id or an id in the expansion |
| `GitHubService.IsInTeamMeaning` | src/github/github.service.ts:44-70 | `isInTeam(T)` is true iff the user is in a team with id T or in a team reachable from T along child edges, and false otherwise |
| `GitHubService.IsInTeams` | src/github/github.service.ts:76-78 | One flag per team id, index-aligned with the input, each equal to `isInTeam` of that id |
| `GitHubService.GetTeamInfo` | src/github/github.service.ts:103-117 | One row per configured team id, in order, with the fetched team's name, rewritten link and slug and `isInTeam` as `isMember`; fails iff an id does not resolve or its membership check fails |
| `GitHubServiceExamples.GrandchildCountsForRoot` | src/github/github.service.ts:50-70 | Root 1, child 2 and grandchild 3, with the user only in 3: `isInTeam(1)` is true |
| `GitHubServiceExamples.OrgInfoFollowsConfiguredOrder` | src/github/github.service.ts:84-97 | Configured `["acme", "other"]` with the user in `acme` only gives `[acme: member, other: not member]` |
| `GitHubServiceExamples.DiamondListsSharedTeamTwice` | src/github/github-source.ts:87-101 | A team below two children of the root appears twice in the expansion |
| `ArtifactoryService.IsUser` | src/artifactory/artifactory.service.ts:27-37 | True iff the lookup succeeds; every failure gives false, and it never fails |
| `ArtifactoryService.BaseUrl` | src/artifactory/artifactory.service.ts:39-41 | The configured base URL, unchanged |
| `ArtifactoryService.IsInGroup` | src/artifactory/artifactory.service.ts:43-46 | Fails iff the lookup fails (with its error); otherwise true iff the record has a group list containing the group |
| `ArtifactoryService.IsInGroups` | src/artifactory/artifactory.service.ts:48-59 | One row per configured group, in order, named after it, with `isInGroup` as `isMember`; fails iff the lookup fails and a group is configured |
| `ArtifactoryService.GroupsOfKnownUser` | src/artifactory/artifactory.service.ts:43-59 | For a user whose record lists some groups, a configured group is marked exactly when it is among them |
| `ArtifactoryService.FailureIsNotAUserButFailsGroups` | src/artifactory/artifactory.service.ts:27-46 | A non-404 lookup failure makes `isUser` false but makes `isInGroups` fail with that error |
| `AppController.ProfilePage` | src/app.controller.ts:29-78 | Sign-in redirect iff there is no token; a rendered page has the configured base URL, and `isInAnyTeams` iff some team row has `isMember` |
| `AppController.ProfileShowsOrganizationsAndCredentials` | src/app.controller.ts:44-48 | A rendered page shows the organization table and the credentials as the GitHub service computes them |
| `AppController.TeamsOnlyForMembersOfEveryOrganization` | src/app.controller.ts:38-52 | The team table is the team info when the user is in every configured organization (always when none is configured), and empty when some organization is not the user's |
| `AppController.GitHubFailureIsServerError` | src/app.controller.ts:44-56 | Any failure of the organization, credentials or (gated) team lookups gives a 500 'could not access the GitHub API', whatever Artifactory would answer |
| `AppController.OrganizationsFailureIsServerError` | src/app.controller.ts:44-56 | In particular, when the user's organizations cannot be fetched and an organization is configured, the page is that 500 |
| `AppController.GroupsOnlyForArtifactoryUsers` | src/app.controller.ts:58-63 | A login that is not an Artifactory user gets a rendered page with no groups; an Artifactory user gets the group table |
| `AppController.ArtifactoryFailureIsServerError` | src/app.controller.ts:58-67 | A failed group lookup for an Artifactory user gives a 500 'could not access the Artifactory API' |
| `AppController.CallbackResponse` | src/app.controller.ts:81-93 | No code gives 400 whatever the exchange does; a failed exchange gives 500; success redirects to `redirectTo` when set and non-empty, else to `/` |
| `AppController.Controller.constructor` | src/app.controller.ts:18-25 | The controller keeps the configuration it is given |
| `AppController.Controller.Root` | src/app.controller.ts:29-78 | Answers `ProfilePage` of the session's token; sets `redirectTo` to `/` exactly when there is no token; the token is untouched |
| `AppController.Controller.Callback` | src/app.controller.ts:81-93 | Answers `CallbackResponse`; on success stores the token and clears `redirectTo`; otherwise the session is unchanged |
| `Sessions.Session.constructor` | src/interfaces/session.ts:15-23 | A new session holds no token and no redirect target |
| `StrapShService.RunEnd` | src/strap.sh/strap.sh.service.ts:20 | The run of non-terminators from a position ends at the first line terminator or at the end |
| `StrapShService.MatchAtIsGreedyMatch` | src/strap.sh/strap.sh.service.ts:20 | Tried at a position, the expression finds a match iff the pattern can match there, and then the longest one |
| `StrapShService.FirstMatch` | src/strap.sh/strap.sh.service.ts:20-21 | The leftmost position where the expression matches, with no match at any earlier position |
| `StrapShService.RemoveShebang` | src/strap.sh/strap.sh.service.ts:19-22 | Unchanged without a match; otherwise the text before the first match followed by the text after it; never longer |
| `StrapShService.RemoveShebangMeaning` | src/strap.sh/strap.sh.service.ts:20-21 | Without any match of the pattern the script is unchanged; otherwise the cut is a match, the longest at its start, with no match starting further left |
| `StrapShService.NoNewlineNoChange` | src/strap.sh/strap.sh.service.ts:20 | A script without a newline, such as a shebang on a final line, is unchanged |
| `StrapShService.LeadingShebangRemoved` | src/strap.sh/strap.sh.service.spec.ts:21-46 | `#!/bin/` + a non-empty line + newline + R gives R, or R without its first character when R starts with a newline |
| `StrapShService.BashShebangRemoved` | src/strap.sh/strap.sh.service.spec.ts:22-29 | The Bash example loses its interpreter line only |
| `StrapShService.BlankLineAfterShebangRemoved` | src/strap.sh/strap.sh.service.spec.ts:38-46 | The example with a blank line after `#!/bin/sh` loses both the interpreter line and the blank line |
| `StrapShController.MemberSlugs` | src/strap.sh/strap.sh.controller.ts:58-60 | A slug is listed iff some member team has it, and there are never more slugs than teams |
| `StrapShController.MemberSlugsOfOne` | src/strap.sh/strap.sh.controller.ts:58-60 | One team gives its slug when the user is in it, and nothing otherwise |
| `StrapShController.MemberSlugsAppend` | src/strap.sh/strap.sh.controller.ts:58-60 | Filtering then mapping keeps the order: the slugs of `a + b` are those of `a` followed by those of `b`, so with `MemberSlugsOfOne` the order and repetitions of the result are fixed |
| `StrapShController.Controller.constructor` | src/strap.sh/strap.sh.controller.ts:24-43 | The script is the bundled file without its shebang; the custom script is the configured file's text, or empty when none is configured |
| `StrapShController.Controller.GetScriptData` | src/strap.sh/strap.sh.controller.ts:45-77 | No token gives the sign-in redirect; a failed team or credentials lookup gives a 500; the script data is rendered exactly when there is a token and both lookups succeed, and it carries the credentials, the token unchanged, the joined member slugs, and the configured registry settings and scripts |
| `StrapShController.Controller.Download` | src/strap.sh/strap.sh.controller.ts:79-86 | Sets `redirectTo` to `/strap.sh`, then answers `getScriptData` of the session's token |
| `StrapShController.Controller.Preview` | src/strap.sh/strap.sh.controller.ts:88-95 | Sets `redirectTo` to `/strap.sh/preview`, then answers `getScriptData` of the session's token |
| `StrapShController.RepoSetsListsMemberTeams` | src/strap.sh/strap.sh.controller.ts:58-61 | `repoSets` is empty when the user is in no configured team; otherwise it splits back into the member slugs; a slug is listed iff a configured team with that slug has `isInTeam` true |
| `ConfigService.FailedProperties` | src/config/config.service.ts:75-86 | No error iff every property of the definition holds; the first error names the first failing property |
| `ConfigService.ThrowOnErrorGuard` | src/config/config.service.ts:60-73 | Returns true iff the guard succeeds; otherwise throws the first recorded error, or a generic error when none was recorded |
| `ConfigService.AssertIsConfigAccepts` | src/config/config.service.ts:75-88 | The validator accepts exactly the objects with string arrays, a number array, the six required strings and an optional string `customScript`; a non-object is refused as such, any other refusal names a defined property |
| `ConfigService.ConfigRoundTrip` | src/config/config.service.spec.ts:5-19 | Every complete, well-typed configuration object is accepted, and reading it back gives the same configuration |
| `ConfigService.Compose` | src/config/config.service.ts:103-111 | The composed object has the four default keys plus the file's keys; the file's values win, and default keys the file lacks keep the environment's value |
| `ConfigService.LoadConfig` | src/config/config.service.ts:100-115 | Loading succeeds iff the composed object is well typed, and then yields that object read as a configuration |
| `ConfigService.FileOverridesEnv` | src/config/config.service.ts:103-111 | A file that sets all four environment-backed keys makes the environment irrelevant |
| `ConfigService.EnvFillsMissingKey` | src/config/config.service.ts:105-111 | A key the file omits is taken from its environment variable; the configuration loads iff that variable is set |

## Left out

- The HTTP clients are not modelled: the Octokit calls in `github-source.ts`, the axios client in `artifactory-source.ts`, and the OAuth redirect and token exchange in `github.auth.ts`. Their answers are inputs: a `GitHubApi` value, a `Directory`, and a `Result` for the exchange.
- Concurrency of `Promise.all` is not modelled. Calls are evaluated left to right.
- `Utils.GetAll`: when several calls fail, the model reports the leftmost failure. The source reports whichever rejects first in time.
- Cyclic team tables are excluded by the `GitHubApi` type. It demands a height that falls along every entry of the child-team table, so it also excludes tables whose cycle is never reached from the queried team, where the source finishes normally. On a reached cycle the source, which keeps no visited set, loops forever only when every child fetch along the way succeeds; when one fails, `Promise.all` rejects and the source stops with that error. Neither case is modelled. The model keeps the source's lack of deduplication.
- The `getTeam` rewrite is a field update on a value. The source mutates the fetched object in place, which no other holder of that object could observe.
- `ArtifactoryService.IsInGroup`: a user record without `groups` gives `undefined` in the source, and the model gives `false`. Both are falsy wherever the value is used.
- One `GitHubApi` value answers every GitHub call of a request. The source repeats calls: `getUserOrganizations` once per configured login, `getUserTeams` once per configured team, and `getTeam` twice per configured team. Repeated calls that answer differently are not modelled. Every GitHub failure ends in the same 500, so the outcome of a page does not depend on which call failed.
- Within one page, the `isUser` lookup and the later group lookups may answer differently. All group lookups share one `Directory`, so the model does not capture answers that differ from group to group.
- The failure of `makeGitHubService` (`app.controller.ts:36`, `strap.sh.controller.ts:50`) is not modelled. It happens outside the `try` blocks, and building a client cannot fail in the model.
- Reading `config.json5`, json5 parsing, `process.env`, the script file and the custom-script file are not modelled; their contents are parameters. A loaded value that is not an object contributes no properties, so array and string index keys are not modelled. JavaScript numbers are integers.
- Logging, response headers, EJS rendering, the session store, Nest modules and bootstrap are not modelled.
- `ConfigService.FailedProperties`: the `reason-guard` library is not part of this model. Its combinators are given the meaning of their names: one error per failing property, in definition order.
- Strings are sequences of Unicode scalar values. JavaScript's UTF-16 code units are not modelled. The regular-expression `.` excludes `\n`, `\r`, U+2028 and U+2029.
