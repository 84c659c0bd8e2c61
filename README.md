# GitHub profile summary: aggregation and credential routing

A Dafny model of the two pieces of logic in the GitHub profile summary service. The GitHub
calls are replaced by their answers.

- **`UserCtrl`** builds a user's profile. It keeps the repositories that are not forks and are
  not empty, and the commits in them whose author login is the requested username. From these
  it computes five maps:
  - commits per quarter (`"2021-Q3"`), sorted by key;
  - repositories per language;
  - stars per language;
  - commits per language;
  - the 50 repositories with the most commits.

  `getUserProfile` guards this computation with a profile cache. `hasStarredRepo` checks
  whether a user watches the reference repository, and answers false on any failure.
- **`GhService`** turns a comma-separated token string into a pool of GitHub clients. Each of
  the four service categories routes to the client with the most remaining requests; the first
  such client wins a tie. The pool's total quota is the sum of its counters.

Modules:
- `Wrappers`: `Option`, which stands for Kotlin's nullable types.
- `Seqs`: `filter`.
- `Text`: decimal rendering and parsing, and `String.compareTo`.
- `Assoc`: Kotlin maps as association lists, so that iteration order is part of the model.
  - `groupingBy`/`fold`/`eachCount` become `GroupSum`: a `LinkedHashMap` with keys in order
    of first appearance.
  - `toSortedMap` becomes `ToSortedMap`: a `TreeMap` ordered by `compareTo`.
  - `toMap` becomes `ToMap`: a repeated key keeps its first position and takes the last value.
- `Ranking`: `sortedBy { -v }` as a stable insertion sort. Every stable sort by the same key
  gives the same list.
- `Aggregation`: the profile pipeline.
- `UserCtrl`: the cache class and the two entry points.
- `GhService`: the pool, the selectors and the total.

## Model

| member | source | states |
|---|---|---|
| Seqs.FilterConcat | src/main/kotlin/app/UserCtrl.kt:36 | filtering a concatenation filters each part and keeps their order |
| Seqs.FilterCount | src/main/kotlin/app/UserCtrl.kt:36-37 | an element that passes the test is kept as many times as it occurs; any other is dropped |
| Aggregation.RetainedRepos | src/main/kotlin/app/UserCtrl.kt:36 | a repository is retained iff it is in the input, is not a fork and has non-zero size; a retained repository occurs as often as in the input |
| Aggregation.RetainedReposOrder | src/main/kotlin/app/UserCtrl.kt:36 | the retained repositories keep their input order (the filter splits over concatenation) |
| Aggregation.UserCommits | src/main/kotlin/app/UserCtrl.kt:37 | a commit is kept iff it has an author whose login equals the username exactly (case-sensitive) |
| Aggregation.UserCommitsCount | src/main/kotlin/app/UserCtrl.kt:37 | each commit by the user is kept as many times as it is listed, and no other commit is kept |
| Aggregation.UserCommitsOrder | src/main/kotlin/app/UserCtrl.kt:37 | the user's commits keep their listing order (the filter splits over concatenation) |
| Aggregation.FetchCommits | src/main/kotlin/app/UserCtrl.kt:37 | fails iff some `getCommits` fails; otherwise entry i pairs retained repository i with exactly its commits by the user |
| Aggregation.QuarterOf | src/main/kotlin/app/UserCtrl.kt:69 | the quarter of a month 0..11 is in 1..4 and the month lies in that quarter's three months |
| Aggregation.QuarterKey | src/main/kotlin/app/UserCtrl.kt:67-70 | every key has the form `<decimal year>-Q<1..4>`, and reading it back gives `1900 + getYear()` and `getMonth() / 3 + 1` |
| Aggregation.QuarterKeySameQuarter | src/main/kotlin/app/UserCtrl.kt:67-70 | two commits get the same key iff they fall in the same quarter of the same year |
| Aggregation.QuarterKeyExample | src/main/kotlin/app/UserCtrl.kt:69 | August 2021 (`getYear()` 121, `getMonth()` 7) gives `"2021-Q3"` |
| Text.ParseIntToString | src/main/kotlin/app/UserCtrl.kt:69 | the decimal rendering of any integer parses back to that integer |
| Text.StrLessIrreflexive | src/main/kotlin/app/UserCtrl.kt:40 | no key sorts before itself |
| Text.StrLessTransitive | src/main/kotlin/app/UserCtrl.kt:40 | the key order of the sorted map is transitive |
| Text.StrLessTotal | src/main/kotlin/app/UserCtrl.kt:40 | any two different keys are ordered one way or the other |
| Aggregation.FlattenLength | src/main/kotlin/app/UserCtrl.kt:40 | the flattened commit list is as long as the per-repository counts add up to |
| Assoc.ToSortedMapSpec | src/main/kotlin/app/UserCtrl.kt:40 | `toSortedMap` gives ascending keys and the same keys; with distinct keys, every lookup and the value total are unchanged |
| Aggregation.QuarterCommitCount | src/main/kotlin/app/UserCtrl.kt:40 | quarter keys are ascending and well formed, a key is present iff some counted commit has it, and the values add up to all counted commits |
| Aggregation.QuarterCommitCountValues | src/main/kotlin/app/UserCtrl.kt:40 | a quarter's value is the number of counted commits with its key; other strings have no entry |
| Assoc.GroupSumKeys | src/main/kotlin/app/UserCtrl.kt:38-43 | grouping yields each key once, in order of first appearance, and a key is present iff some element has it |
| Assoc.GroupSumLookup | src/main/kotlin/app/UserCtrl.kt:41-43 | a group's value is the sum of the weights of the elements with its key; absent keys have no entry |
| Assoc.GroupSumTotal | src/main/kotlin/app/UserCtrl.kt:41-43 | the values of a grouping add up to the total weight |
| Aggregation.LangOf | src/main/kotlin/app/UserCtrl.kt:38 | a repository's group is its language; it is "Unknown" iff the language is null or is literally "Unknown" |
| Aggregation.LangRepoCount | src/main/kotlin/app/UserCtrl.kt:38-41 | languages appear once each, in first-appearance order, and the counts add up to the number of retained repositories |
| Aggregation.LangStarCount | src/main/kotlin/app/UserCtrl.kt:42 | the same languages in the same order, with values adding up to the stars of all retained repositories |
| Aggregation.LangCommitCount | src/main/kotlin/app/UserCtrl.kt:43 | the same languages in the same order, with values adding up to all counted commits |
| Aggregation.LangRepoCountSpec | src/main/kotlin/app/UserCtrl.kt:41 | a language's count is its number of retained repositories; other strings have no entry |
| Aggregation.UnknownLanguageGroup | src/main/kotlin/app/UserCtrl.kt:38 | a repository without a language makes `"Unknown"` a key of all three language maps |
| Aggregation.LangStarCountSpec | src/main/kotlin/app/UserCtrl.kt:42 | a language's star count is the sum of `watchers` over its retained repositories; other strings have no entry |
| Aggregation.LangCommitCountSpec | src/main/kotlin/app/UserCtrl.kt:43 | a language's commit count is the sum of its repositories' counted commits; other strings have no entry |
| Ranking.SortDescSorted | src/main/kotlin/app/UserCtrl.kt:44 | `sortedBy { -v }` is a permutation of its input with non-increasing counts |
| Ranking.SortDescStable | src/main/kotlin/app/UserCtrl.kt:44 | for every count, the entries with that count keep their input order |
| Ranking.SortDescKeys | src/main/kotlin/app/UserCtrl.kt:44 | sorting keeps the set of names, and keeps them distinct |
| Ranking.WithCountPrefix | src/main/kotlin/app/UserCtrl.kt:44 | `take` keeps, for each count, a prefix of the entries with that count |
| Assoc.ToMapSpec | src/main/kotlin/app/UserCtrl.kt:44 | `toMap` has distinct keys, no more entries than pairs, and the same keys |
| Assoc.PutLookup | src/main/kotlin/app/UserCtrl.kt:44 | `put` sets the value of its own key and leaves every other lookup unchanged |
| Assoc.ToMapLookup | src/main/kotlin/app/UserCtrl.kt:44 | for every key, `toMap` holds the value of the last pair with that key, and no entry when there is none |
| Assoc.ToMapDistinct | src/main/kotlin/app/UserCtrl.kt:44 | `toMap` of pairs with distinct keys is those pairs in the same order |
| Aggregation.TopLeftOut | src/main/kotlin/app/UserCtrl.kt:44 | anything the sort leaves out of its first n entries has a count no larger than any kept one |
| Aggregation.TopStable | src/main/kotlin/app/UserCtrl.kt:44 | the first n entries of the sort list the entries of each count in input order |
| Aggregation.RepoCommitCount | src/main/kotlin/app/UserCtrl.kt:44 | at most 50 repositories are ranked, each name once |
| Aggregation.RepoCommitCountRanked | src/main/kotlin/app/UserCtrl.kt:44 | with distinct names, the ranking is the first min(50, n) entries of the stable descending sort: its counts are non-increasing, every left-out repository has no more commits than any kept one, and equal counts keep input order |
| Aggregation.BuildProfile | src/main/kotlin/app/UserCtrl.kt:46 | the profile carries the user and the time stamp; the quarter and language commit totals agree, the three language maps share their keys, repository counts add up to the retained total, and at most 50 repositories are ranked |
| Aggregation.EmptyProfile | src/main/kotlin/app/UserCtrl.kt:36-46 | a user with no qualifying repositories gets all-empty maps |
| UserCtrl.Compute | src/main/kotlin/app/UserCtrl.kt:35-46 | recomputation fails at the first failing call (user, then repositories, then commits), labelled by that call, and succeeds iff all answer; a profile is the one built from the fetched user and the filtered commits of the retained repositories |
| UserCtrl.Cache.Invalid | src/main/kotlin/app/UserCtrl.kt:34 | an entry that is not invalid can always be read back, so the `!!` on a hit never fails |
| UserCtrl.Cache.Contains | src/main/kotlin/app/UserCtrl.kt:56 | a username is contained iff the cache finds a profile for it |
| UserCtrl.Cache.Get | src/main/kotlin/app/UserCtrl.kt:48 | a profile is found iff one is stored under the username, and it is that profile |
| UserCtrl.Cache.Put | src/main/kotlin/app/UserCtrl.kt:46 | the profile is stored under its own login, replacing any older entry, and is valid afterwards; other entries are unchanged |
| UserCtrl.GetUserProfile | src/main/kotlin/app/UserCtrl.kt:33-49 | a valid entry is returned without recomputation and the cache is unchanged; a failed recomputation fails with the cache unchanged; otherwise the new profile is stored and the entry under the username is returned, which is the new profile when the logins match |
| UserCtrl.GetUserProfileTwice | src/main/kotlin/app/UserCtrl.kt:33-49 | right after a successful computation, a second request is a cache hit with the same profile |
| UserCtrl.HasStarredRepo | src/main/kotlin/app/UserCtrl.kt:51-65 | true iff the username is present and non-empty, and either it is cached or it is among the watchers; a failed watcher fetch answers false |
| GhService.Split | src/main/kotlin/app/GhService.kt:19 | splitting gives one more part than there are commas, and no part contains a comma |
| GhService.JoinSplit | src/main/kotlin/app/GhService.kt:19 | joining the split parts with commas gives back the token string |
| GhService.SplitJoin | src/main/kotlin/app/GhService.kt:19 | comma-free parts survive a join followed by a split |
| GhService.Tokens | src/main/kotlin/app/GhService.kt:19 | there is always at least one token; a missing configuration gives the single empty token |
| GhService.NewPool | src/main/kotlin/app/GhService.kt:20 | one client per token, in token order, each holding the unknown counter -1 |
| GhService.ServicesFor | src/main/kotlin/app/GhService.kt:21-24 | each category has one service per client, and service i wraps client i |
| GhService.MaxBy | src/main/kotlin/app/GhService.kt:26-29 | `maxBy` is null iff the list is empty; otherwise it returns an index of the largest key with no equal key earlier |
| GhService.FirstMaxUnique | src/main/kotlin/app/GhService.kt:26-29 | `maxBy` returns i iff i is the first index holding the largest key |
| GhService.Select | src/main/kotlin/app/GhService.kt:26-29 | a selector finds a service iff the pool is non-empty; the chosen client has at least every other client's remaining requests and more than every earlier client's |
| GhService.SelectNewPool | src/main/kotlin/app/GhService.kt:19-29 | every selector succeeds on a pool built from any configuration |
| GhService.SelectFreshPool | src/main/kotlin/app/GhService.kt:20-29 | before any response every selector picks the first client |
| GhService.SelectTieExample | src/main/kotlin/app/GhService.kt:26 | with quotas [10, 50, 50] the client at index 1 is selected |
| GhService.RemainingRequests | src/main/kotlin/app/GhService.kt:31 | with no negative counter the total is non-negative and at least every client's own count |
| GhService.RemainingRequestsZero | src/main/kotlin/app/GhService.kt:31 | with no negative counter the total is non-negative, and it is 0 iff every client has 0 |
| GhService.RemainingRequestsConcat | src/main/kotlin/app/GhService.kt:31 | the total is additive over any split of the pool |
| GhService.FreshPoolTotal | src/main/kotlin/app/GhService.kt:20-31 | a fresh pool reports minus its number of tokens |

## Left out

- The GitHub calls (`getUser`, `getRepositories`, `getCommits`, `getWatchers`, `getRepository`) are not modelled; their answers are inputs (`UserCtrl.Api`, the `watchers` argument), with None standing for an exception.
- `parallelStream` runs the commit fetches concurrently; the model fetches them in repository order, and the result list is the same either way.
- The two-minute ping timer and `broadcastRemainingRequests` in `GhService` are background scheduling and socket I/O; they are not modelled.
- `Heroku.getOauthToken` and `Config.getApiTokens` read the environment. The token string is a parameter, and `UserCtrl`'s own single-token client is not modelled.
- The start-up fetch of the reference repository is not modelled. If it fails, `getWatchers(null)` throws; that is the `None` watcher answer of `UserCtrl.HasStarredRepo`.
- `java.util.Date` extraction (local time zone, `getYear`, `getMonth`) is not modelled; a commit carries the extracted year and month.
- The wall-clock `timeStamp` is a parameter.
- The `Cache` object and its time-to-live clock are not part of this model. `UserCtrl.Cache` keeps only the stored map and the set of usernames whose entry has expired.
- `Cache.putUserProfile` is modelled as keying by the profile's own login.
- `Cache.contains` is modelled as "an entry is stored, expired or not".
- The library updates each client's counter after every response; this is not modelled. `GhService.Select` is a function of the pool, so choosing a client cannot change any counter.
- `Repository` has no value equality and keys `repoCommits` by identity, so `repoCommits` is a list with one entry per retained repository. `repoCommits[repo]!!` therefore always finds its entry.
- Aggregation.LangStarCount: star sums are unbounded integers; Kotlin `Int` wraps above 2^31 - 1.
- Aggregation.LangStarCountSpec: per-language star sums are unbounded integers; Kotlin `Int` wraps above 2^31 - 1.
- Aggregation.LangCommitCount: commit sums are unbounded integers; Kotlin `Int` would wrap above 2^31 - 1.
- Aggregation.LangCommitCountSpec: per-language commit sums are unbounded integers; Kotlin `Int` would wrap above 2^31 - 1.
- Aggregation.QuarterCommitCount: commit counts are unbounded integers; Kotlin `Int` would wrap above 2^31 - 1.
- Aggregation.QuarterCommitCountValues: per-quarter counts are unbounded integers; Kotlin `Int` would wrap above 2^31 - 1.
- GhService.RemainingRequests: `sumBy` is modelled without 32-bit wrap-around.
- GhService.RemainingRequestsZero: `sumBy` is modelled without 32-bit wrap-around.
- Aggregation.RepoCommitCountRanked: assumes distinct repository names, which GitHub guarantees within one owner. Without that, `toMap` merges duplicate names, and only the contract of `Aggregation.RepoCommitCount` holds.
- Text.StrLessTransitive: compares strings character by character as Unicode code points. Java compares UTF-16 code units, and the two orders differ only for characters outside the Basic Multilingual Plane.
- UserCtrl.HasStarredRepo: only a failed watcher fetch is modelled as an exception; `Cache.contains` is taken not to throw.

## Notes on the code

- The ranking keeps the first 50 repositories of the sorted list (`UserCtrl.kt:44`).
- A commit counts only when its author's login equals the requested username under case-sensitive `==` (`UserCtrl.kt:37`).
- `getCommits` is not guarded. One failing call ends the whole computation (`UserCtrl.kt:37`), and the model returns `CommitFetchFailed`.
- `hasStarredRepo` asks for the watchers without looking at any quota (`UserCtrl.kt:59`).
- The language maps keep first-appearance order and are not sorted (`UserCtrl.kt:41-43`).
- `UserCtrl` calls GitHub through its own client (`UserCtrl.kt:19-26`), not through the `GhService` pool.
