/**
 * The statistics `UserCtrl.getUserProfile` derives from a user's repositories and their
 * commits, once the GitHub calls have answered: which repositories and commits count,
 * the "<year>-Q<n>" quarter keys, the per-language maps and the top-50 repository ranking.
 */
module Aggregation {
  import opened Wrappers
  import opened Seqs
  import opened Text
  import opened Assoc
  import opened Ranking

  /** `java.util.Date.getMonth()`: January is 0. */
  type Month = m: int | 0 <= m < 12

  /** The fields of a GitHub repository that the profile reads; `watchers` is its star count. */
  datatype Repo = Repo(name: string, language: Option<string>, watchers: int, size: int, isFork: bool)

  /**
   * The fields of a commit that the profile reads: the login of its GitHub author (absent when
   * the commit has no linked account) and its committer date as `Date.getYear()` (years since
   * 1900) and `Date.getMonth()`.
   */
  datatype Commit = Commit(authorLogin: Option<string>, year: int, month: Month)

  datatype User = User(login: string)

  /** A retained repository and the commits in it by the requested user: one entry of `repoCommits`. */
  datatype RepoCommits = RepoCommits(repo: Repo, commits: seq<Commit>)

  /** The `UserProfile` record; each map is an association list in the map's iteration order. */
  datatype UserProfile = UserProfile(
    user: User,
    quarterCommitCount: seq<(string, int)>,
    langRepoCount: seq<(string, int)>,
    langStarCount: seq<(string, int)>,
    langCommitCount: seq<(string, int)>,
    repoCommitCount: seq<(string, int)>,
    timeStamp: int)

  const UnknownLanguage: string := "Unknown"
  const TopRepoCount: nat := 50

  // ---------------------------------------------------------------------------
  // Which repositories and commits count

  predicate Qualifies(r: Repo) {
    !r.isFork && r.size != 0
  }

  /** `repos.filter { !it.isFork && it.size != 0 }`. */
  function RetainedRepos(repos: seq<Repo>): (kept: seq<Repo>)
    ensures forall r :: r in kept <==> r in repos && !r.isFork && r.size != 0
    ensures forall r :: multiset(kept)[r] == if !r.isFork && r.size != 0 then multiset(repos)[r] else 0
  {
    FilterCount(repos, Qualifies);
    Filter(repos, Qualifies)
  }

  /** The retained repositories keep their relative order: the filter works piecewise on a split list. */
  lemma RetainedReposOrder(a: seq<Repo>, b: seq<Repo>)
    ensures RetainedRepos(a + b) == RetainedRepos(a) + RetainedRepos(b)
  {
    FilterConcat(a, b, Qualifies);
  }

  /** The test `it.author?.login == username` for one username. */
  function AuthoredBy(username: string): Commit -> bool {
    (c: Commit) => c.authorLogin == Some(username)
  }

  /** `commits.filter { it.author?.login == username }`: exact, case-sensitive login equality. */
  function UserCommits(commits: seq<Commit>, username: string): (mine: seq<Commit>)
    ensures forall c :: c in mine <==> c in commits && c.authorLogin.Some? && c.authorLogin.value == username
  {
    Filter(commits, AuthoredBy(username))
  }

  /** A commit by the user is kept as often as it is listed; any other commit is dropped. */
  lemma UserCommitsCount(commits: seq<Commit>, username: string)
    ensures forall c ::
      multiset(UserCommits(commits, username))[c] == if c.authorLogin == Some(username) then multiset(commits)[c] else 0
  {
    FilterCount(commits, AuthoredBy(username));
  }

  /** The user's commits keep their listing order: the filter works piecewise on a split list. */
  lemma UserCommitsOrder(a: seq<Commit>, b: seq<Commit>, username: string)
    ensures UserCommits(a + b, username) == UserCommits(a, username) + UserCommits(b, username)
  {
    FilterConcat(a, b, AuthoredBy(username));
  }

  /**
   * The commit lists of the retained repositories, each filtered to the user's commits, in
   * repository order; a single failed `getCommits` makes the whole step fail.
   */
  function FetchCommits(repos: seq<Repo>, username: string, commitsOf: Repo -> Option<seq<Commit>>): (r: Option<seq<RepoCommits>>)
    ensures r.None? <==> exists i :: 0 <= i < |repos| && commitsOf(repos[i]).None?
    ensures r.Some? ==> |r.value| == |repos|
    ensures r.Some? ==> forall i :: 0 <= i < |repos| ==>
      && commitsOf(repos[i]).Some?
      && r.value[i] == RepoCommits(repos[i], UserCommits(commitsOf(repos[i]).value, username))
  {
    if repos == [] then Some([])
    else
      match commitsOf(repos[0])
      case None => None
      case Some(listing) =>
        match FetchCommits(repos[1..], username, commitsOf)
        case None =>
          assert exists i :: 0 <= i < |repos| && commitsOf(repos[i]).None? by {
            var j :| 0 <= j < |repos[1..]| && commitsOf(repos[1..][j]).None?;
            assert commitsOf(repos[j + 1]).None?;
          }
          None
        case Some(rest) =>
          Some([RepoCommits(repos[0], UserCommits(listing, username))] + rest)
  }

  // ---------------------------------------------------------------------------
  // Quarter keys

  /** `month / 3 + 1`: the calendar quarter of a month. */
  function QuarterOf(month: Month): (q: int)
    ensures 1 <= q <= 4
    ensures 3 * (q - 1) <= month < 3 * q
  {
    month / 3 + 1
  }

  /** An optional minus sign followed by at least one decimal digit. */
  predicate IsDecimal(s: string) {
    var digits := if |s| > 0 && s[0] == '-' then s[1..] else s;
    |digits| >= 1 && forall i :: 0 <= i < |digits| ==> IsDigit(digits[i])
  }

  /** The shape `<decimal year>-Q<n>` with `n` one of 1, 2, 3, 4. */
  predicate IsQuarterKey(s: string) {
    && |s| >= 4
    && IsDecimal(s[..|s| - 3])
    && s[|s| - 3] == '-' && s[|s| - 2] == 'Q'
    && '1' <= s[|s| - 1] <= '4'
  }

  /** Reads a quarter key back into its calendar year and quarter number. */
  function ParseQuarterKey(s: string): Option<(int, int)> {
    if |s| >= 4 && s[|s| - 3] == '-' && s[|s| - 2] == 'Q' && IsDigit(s[|s| - 1]) then
      Some((ParseInt(s[..|s| - 3]), DigitValue(s[|s| - 1])))
    else
      None
  }

  /**
   * `getYearAndQuarter`: the calendar year, `-Q` and the quarter number. The key is well formed
   * and reads back to the year and quarter it was made from.
   */
  function QuarterKey(c: Commit): (key: string)
    ensures IsQuarterKey(key)
    ensures ParseQuarterKey(key) == Some((1900 + c.year, QuarterOf(c.month)))
  {
    var year := IntToString(1900 + c.year);
    var digit := DigitChar(QuarterOf(c.month));
    var key := year + "-Q" + [digit];
    assert key[..|key| - 3] == year;
    assert key[|key| - 3] == '-' && key[|key| - 2] == 'Q' && key[|key| - 1] == digit;
    ParseIntToString(1900 + c.year);
    assert DigitValue(digit) == QuarterOf(c.month);
    assert IsDecimal(year) by {
      if 1900 + c.year < 0 {
        assert year[1..] == NatToString(-(1900 + c.year));
      } else {
        assert IsDigit(year[0]);
      }
    }
    key
  }

  /** Two commits share a quarter key exactly when they fall in the same quarter of the same year. */
  lemma QuarterKeySameQuarter(c: Commit, d: Commit)
    ensures QuarterKey(c) == QuarterKey(d) <==> c.year == d.year && QuarterOf(c.month) == QuarterOf(d.month)
  {
  }

  /** A commit of August 2021 (`getYear()` 121, `getMonth()` 7) is counted under "2021-Q3". */
  lemma QuarterKeyExample()
    ensures QuarterKey(Commit(None, 121, 7)) == "2021-Q3"
  {
    assert NatToString(2) == "2";
    assert NatToString(20) == "20";
    assert NatToString(202) == "202";
    assert NatToString(2021) == "2021";
  }

  // ---------------------------------------------------------------------------
  // The profile maps

  /** `repoCommits.flatMap { it.value }`. */
  function Flatten(rcs: seq<RepoCommits>): seq<Commit> {
    if rcs == [] then [] else Flatten(rcs[..|rcs| - 1]) + rcs[|rcs| - 1].commits
  }

  function OneCommit(c: Commit): int { 1 }
  function OneRepo(rc: RepoCommits): int { 1 }
  function Stars(rc: RepoCommits): int { rc.repo.watchers }
  function CommitTally(rc: RepoCommits): int { |rc.commits| }

  /**
   * `it.language ?: "Unknown"`: a repository without a language lands in the same group as one
   * whose language is literally "Unknown".
   */
  function LangOf(r: Repo): (lang: string)
    ensures r.language.Some? ==> lang == r.language.value
    ensures lang == UnknownLanguage <==> r.language.None? || r.language == Some(UnknownLanguage)
  {
    match r.language
    case Some(lang) => lang
    case None => UnknownLanguage
  }

  function RepoLang(rc: RepoCommits): string { LangOf(rc.repo) }

  /** The number of commits counted is the sum of the per-repository counts. */
  lemma {:induction false} FlattenLength(rcs: seq<RepoCommits>)
    ensures |Flatten(rcs)| == SumAll(rcs, CommitTally)
  {
    if rcs != [] {
      FlattenLength(rcs[..|rcs| - 1]);
    }
  }

  /**
   * `groupingBy { getYearAndQuarter(it) }.fold(0) { acc, _ -> acc + 1 }.toSortedMap()`: well-formed
   * quarter keys in ascending order, one per quarter that has a counted commit, whose values add
   * up to all counted commits.
   */
  function QuarterCommitCount(rcs: seq<RepoCommits>): (m: seq<(string, int)>)
    ensures Ascending(m)
    ensures forall k :: k in Keys(m) <==> k in KeysOf(Flatten(rcs), QuarterKey)
    ensures forall k :: k in Keys(m) ==> IsQuarterKey(k)
    ensures ValueSum(m) == |Flatten(rcs)|
  {
    var all := Flatten(rcs);
    var grouped := GroupSum(all, QuarterKey, OneCommit);
    ToSortedMapSpec(grouped);
    GroupSumKeys(all, QuarterKey, OneCommit);
    GroupSumTotal(all, QuarterKey, OneCommit);
    SumAllOnes(all, OneCommit);
    assert forall k :: k in KeysOf(all, QuarterKey) ==> IsQuarterKey(k) by {
      forall k | k in KeysOf(all, QuarterKey) ensures IsQuarterKey(k) {
        var i :| 0 <= i < |all| && KeysOf(all, QuarterKey)[i] == k;
      }
    }
    ToSortedMap(grouped)
  }

  /**
   * `langRepoGrouping.eachCount()`: each language once, in order of first appearance, with
   * counts adding up to the number of retained repositories.
   */
  function LangRepoCount(rcs: seq<RepoCommits>): (m: seq<(string, int)>)
    ensures Keys(m) == Dedup(KeysOf(rcs, RepoLang))
    ensures DistinctKeys(m)
    ensures ValueSum(m) == |rcs|
  {
    GroupSumKeys(rcs, RepoLang, OneRepo);
    GroupSumTotal(rcs, RepoLang, OneRepo);
    SumAllOnes(rcs, OneRepo);
    GroupSum(rcs, RepoLang, OneRepo)
  }

  /**
   * `langRepoGrouping.fold(0) { acc, repo -> acc + repo.watchers }`: the same languages in the
   * same order, with values adding up to the stars of all retained repositories.
   */
  function LangStarCount(rcs: seq<RepoCommits>): (m: seq<(string, int)>)
    ensures Keys(m) == Dedup(KeysOf(rcs, RepoLang))
    ensures ValueSum(m) == SumAll(rcs, Stars)
  {
    GroupSumKeys(rcs, RepoLang, Stars);
    GroupSumTotal(rcs, RepoLang, Stars);
    GroupSum(rcs, RepoLang, Stars)
  }

  /**
   * `langRepoGrouping.fold(0) { acc, repo -> acc + repoCommits[repo]!!.size }`: the same languages
   * in the same order, with values adding up to all counted commits.
   */
  function LangCommitCount(rcs: seq<RepoCommits>): (m: seq<(string, int)>)
    ensures Keys(m) == Dedup(KeysOf(rcs, RepoLang))
    ensures ValueSum(m) == |Flatten(rcs)|
  {
    GroupSumKeys(rcs, RepoLang, CommitTally);
    GroupSumTotal(rcs, RepoLang, CommitTally);
    FlattenLength(rcs);
    GroupSum(rcs, RepoLang, CommitTally)
  }

  /** `repoCommits.map { it.key.name to it.value.size }`. */
  function NameCounts(rcs: seq<RepoCommits>): (pairs: seq<(string, int)>)
    ensures |pairs| == |rcs|
    ensures forall i :: 0 <= i < |rcs| ==> pairs[i] == (rcs[i].repo.name, |rcs[i].commits|)
  {
    seq(|rcs|, i requires 0 <= i < |rcs| => (rcs[i].repo.name, |rcs[i].commits|))
  }

  /** `take(n)`. */
  function Take(s: seq<(string, int)>, n: nat): seq<(string, int)> {
    if |s| <= n then s else s[..n]
  }

  /** `….sortedBy { (_, v) -> -v }.take(50).toMap()`: at most 50 repositories, each name once. */
  function RepoCommitCount(rcs: seq<RepoCommits>): (m: seq<(string, int)>)
    ensures |m| <= TopRepoCount
    ensures DistinctKeys(m)
  {
    ToMapSpec(Take(SortDesc(NameCounts(rcs)), TopRepoCount));
    ToMap(Take(SortDesc(NameCounts(rcs)), TopRepoCount))
  }

  /**
   * The `UserProfile` built from one computation. Its maps agree: quarters and languages count
   * the same commits, the language maps share their keys, the repository counts add up to the
   * retained repositories, and at most 50 repositories are ranked.
   */
  function BuildProfile(user: User, rcs: seq<RepoCommits>, timeStamp: int): (profile: UserProfile)
    ensures profile.user == user && profile.timeStamp == timeStamp
    ensures ValueSum(profile.quarterCommitCount) == |Flatten(rcs)| == ValueSum(profile.langCommitCount)
    ensures ValueSum(profile.langRepoCount) == |rcs|
    ensures Keys(profile.langStarCount) == Keys(profile.langRepoCount)
    ensures Keys(profile.langCommitCount) == Keys(profile.langRepoCount)
    ensures |profile.repoCommitCount| <= TopRepoCount
  {
    UserProfile(user, QuarterCommitCount(rcs), LangRepoCount(rcs), LangStarCount(rcs),
      LangCommitCount(rcs), RepoCommitCount(rcs), timeStamp)
  }

  // ---------------------------------------------------------------------------
  // What the maps promise

  /** Each quarter's value is the number of counted commits with its key. */
  lemma QuarterCommitCountValues(rcs: seq<RepoCommits>, k: string)
    ensures Lookup(QuarterCommitCount(rcs), k) ==
      if k in KeysOf(Flatten(rcs), QuarterKey) then Some(SumWhere(Flatten(rcs), QuarterKey, OneCommit, k)) else None
  {
    var all := Flatten(rcs);
    var grouped := GroupSum(all, QuarterKey, OneCommit);
    GroupSumKeys(all, QuarterKey, OneCommit);
    ToSortedMapSpec(grouped);
    GroupSumLookup(all, QuarterKey, OneCommit, k);
  }

  /** A language's repository count is its number of retained repositories; other strings have no entry. */
  lemma LangRepoCountSpec(rcs: seq<RepoCommits>, k: string)
    ensures Lookup(LangRepoCount(rcs), k) ==
      if k in KeysOf(rcs, RepoLang) then Some(SumWhere(rcs, RepoLang, OneRepo, k)) else None
  {
    GroupSumLookup(rcs, RepoLang, OneRepo, k);
  }

  /** A repository without a language is grouped under "Unknown" in all three language maps. */
  lemma UnknownLanguageGroup(rcs: seq<RepoCommits>, i: nat)
    requires i < |rcs| && rcs[i].repo.language.None?
    ensures UnknownLanguage in Keys(LangRepoCount(rcs))
    ensures UnknownLanguage in Keys(LangStarCount(rcs))
    ensures UnknownLanguage in Keys(LangCommitCount(rcs))
  {
    assert KeysOf(rcs, RepoLang)[i] == UnknownLanguage;
    DedupSpec(KeysOf(rcs, RepoLang));
  }

  /** A language's star count is the sum of the `watchers` of its retained repositories. */
  lemma LangStarCountSpec(rcs: seq<RepoCommits>, k: string)
    ensures Lookup(LangStarCount(rcs), k) ==
      if k in KeysOf(rcs, RepoLang) then Some(SumWhere(rcs, RepoLang, Stars, k)) else None
  {
    GroupSumLookup(rcs, RepoLang, Stars, k);
  }

  /** A language's commit count is the sum of its repositories' counted commits; the values add up to all counted commits. */
  lemma LangCommitCountSpec(rcs: seq<RepoCommits>, k: string)
    ensures Lookup(LangCommitCount(rcs), k) ==
      if k in KeysOf(rcs, RepoLang) then Some(SumWhere(rcs, RepoLang, CommitTally, k)) else None
  {
    GroupSumLookup(rcs, RepoLang, CommitTally, k);
  }

  /** Distinct repository names give a name list without duplicates. */
  lemma NameCountsDistinct(rcs: seq<RepoCommits>)
    requires forall i, j :: 0 <= i < j < |rcs| ==> rcs[i].repo.name != rcs[j].repo.name
    ensures DistinctKeys(NameCounts(rcs))
  {
    assert forall i :: 0 <= i < |rcs| ==> Keys(NameCounts(rcs))[i] == rcs[i].repo.name;
  }

  /** The ranked list, cut to its first `n` entries, keeps distinct names when the list has them. */
  lemma TakeDistinct(ranked: seq<(string, int)>, n: nat)
    requires DistinctKeys(ranked)
    ensures Take(ranked, n) == ranked[..|Take(ranked, n)|]
    ensures DistinctKeys(Take(ranked, n))
  {
    var top := Take(ranked, n);
    assert Keys(top) == Keys(ranked)[..|top|];
  }

  /** An entry of a descending list that falls outside its first `n` entries is no larger than any kept entry. */
  lemma TakeLeftOutBound(ranked: seq<(string, int)>, n: nat, p: (string, int), q: (string, int))
    requires NonIncreasing(ranked)
    requires p in ranked && p !in Take(ranked, n) && q in Take(ranked, n)
    ensures p.1 <= q.1
  {
    var top := Take(ranked, n);
    var j :| 0 <= j < |ranked| && ranked[j] == p;
    var i :| 0 <= i < |top| && top[i] == q;
    assert j >= |top|;
    assert ranked[i] == q;
  }

  /** What the sort leaves out of its first `n` entries has no larger count than anything it keeps. */
  lemma TopLeftOut(pairs: seq<(string, int)>, n: nat)
    ensures forall p, q :: p in pairs && p !in Take(SortDesc(pairs), n) && q in Take(SortDesc(pairs), n) ==> p.1 <= q.1
  {
    var ranked := SortDesc(pairs);
    SortDescSorted(pairs);
    forall p, q | p in pairs && p !in Take(ranked, n) && q in Take(ranked, n) ensures p.1 <= q.1 {
      assert p in multiset(ranked);
      TakeLeftOutBound(ranked, n, p, q);
    }
  }

  /** The first `n` entries of the stable sort list the entries of each count in their input order. */
  lemma TopStable(pairs: seq<(string, int)>, n: nat)
    ensures forall v :: WithCount(Take(SortDesc(pairs), n), v) <= WithCount(pairs, v)
  {
    var ranked := SortDesc(pairs);
    forall v ensures WithCount(Take(ranked, n), v) <= WithCount(pairs, v) {
      assert Take(ranked, n) == ranked[..|Take(ranked, n)|];
      WithCountPrefix(ranked, |Take(ranked, n)|, v);
      SortDescStable(pairs, v);
    }
  }

  /**
   * With distinct repository names (GitHub names are unique per owner) the ranking is the first
   * min(50, n) entries of the stable descending sort: counts never increase along it, every
   * repository left out has no more commits than any kept one, and repositories with equal
   * counts appear in their input order.
   */
  lemma RepoCommitCountRanked(rcs: seq<RepoCommits>)
    requires forall i, j :: 0 <= i < j < |rcs| ==> rcs[i].repo.name != rcs[j].repo.name
    ensures RepoCommitCount(rcs) == Take(SortDesc(NameCounts(rcs)), TopRepoCount)
    ensures NonIncreasing(RepoCommitCount(rcs))
    ensures forall p, q :: p in NameCounts(rcs) && p !in RepoCommitCount(rcs) && q in RepoCommitCount(rcs) ==> p.1 <= q.1
    ensures forall v :: WithCount(RepoCommitCount(rcs), v) <= WithCount(NameCounts(rcs), v)
  {
    var pairs := NameCounts(rcs);
    var ranked := SortDesc(pairs);
    var top := Take(ranked, TopRepoCount);
    NameCountsDistinct(rcs);
    SortDescSorted(pairs);
    SortDescKeys(pairs);
    TakeDistinct(ranked, TopRepoCount);
    ToMapDistinct(top);
    TopLeftOut(pairs, TopRepoCount);
    TopStable(pairs, TopRepoCount);
  }

  /** A user with no qualifying repositories gets a profile whose maps are all empty. */
  lemma EmptyProfile(user: User, timeStamp: int)
    ensures BuildProfile(user, [], timeStamp) == UserProfile(user, [], [], [], [], [], timeStamp)
  {
  }
}
