/**
 * `UserCtrl`: the cache-guarded profile entry point `getUserProfile` and the star check
 * `hasStarredRepo`, over a cache from usernames to profiles. The GitHub calls are replaced by
 * their answers, each absent when the call throws.
 */
module UserCtrl {
  import opened Wrappers
  import opened Assoc
  import opened Aggregation

  /** Which step of `getUserProfile` threw; `NotCached` is the `!!` on a profile cached under another login. */
  datatype Failure = UserFetchFailed | RepoFetchFailed | CommitFetchFailed | NotCached

  datatype Outcome = Ok(profile: UserProfile) | Failed(failure: Failure)

  /**
   * What GitHub answers for one user: `getUser`, `getRepositories` and `getCommits` per
   * repository, each None when the call throws.
   */
  datatype Api = Api(user: Option<User>, repos: Option<seq<Repo>>, commitsOf: Repo -> Option<seq<Commit>>)

  /**
   * The recomputation branch of `getUserProfile`: fetch the user, then the repositories, then
   * the commits of every retained repository, and build the profile stamped with `timeStamp`.
   * The first call that throws ends it.
   */
  function Compute(username: string, api: Api, timeStamp: int): (r: Outcome)
    ensures api.user.None? ==> r == Failed(UserFetchFailed)
    ensures api.user.Some? && api.repos.None? ==> r == Failed(RepoFetchFailed)
    ensures api.user.Some? && api.repos.Some? && !r.Ok? ==> r == Failed(CommitFetchFailed)
    ensures r.Ok? <==> && api.user.Some? && api.repos.Some?
                       && forall repo :: repo in RetainedRepos(api.repos.value) ==> api.commitsOf(repo).Some?
    ensures r.Ok? ==> r.profile.user == api.user.value && r.profile.timeStamp == timeStamp
    ensures r.Ok? ==>
      && FetchCommits(RetainedRepos(api.repos.value), username, api.commitsOf).Some?
      && r.profile == BuildProfile(api.user.value, FetchCommits(RetainedRepos(api.repos.value), username, api.commitsOf).value, timeStamp)
    ensures r.Ok? ==> ValueSum(r.profile.langRepoCount) == |RetainedRepos(api.repos.value)|
    ensures r.Ok? ==> ValueSum(r.profile.quarterCommitCount) == ValueSum(r.profile.langCommitCount)
  {
    match api.user
    case None => Failed(UserFetchFailed)
    case Some(user) =>
      match api.repos
      case None => Failed(RepoFetchFailed)
      case Some(all) =>
        var retained := RetainedRepos(all);
        match FetchCommits(retained, username, api.commitsOf)
        case None => Failed(CommitFetchFailed)
        case Some(rcs) => Ok(BuildProfile(user, rcs, timeStamp))
  }

  /**
   * The profile cache: `entries` holds the stored profiles, `expired` the usernames whose entry
   * has outlived its time to live.
   */
  class Cache {
    var entries: map<string, UserProfile>
    var expired: set<string>

    constructor (entries: map<string, UserProfile>, expired: set<string>)
      ensures this.entries == entries && this.expired == expired
    {
      this.entries := entries;
      this.expired := expired;
    }

    /** `Cache.invalid`: no entry, or an expired one. A valid entry can always be read back. */
    predicate Invalid(username: string): (stale: bool)
      reads this
      ensures !stale ==> Get(username).Some?
    {
      username !in entries || username in expired
    }

    /** `Cache.contains`: an entry is stored, fresh or not; exactly the usernames `Get` finds. */
    predicate Contains(username: string): (present: bool)
      reads this
      ensures present <==> Get(username).Some?
    {
      username in entries
    }

    /** `Cache.getUserProfile`. */
    function Get(username: string): (found: Option<UserProfile>)
      reads this
      ensures found.Some? <==> username in entries
      ensures found.Some? ==> found.value == entries[username]
    {
      if username in entries then Some(entries[username]) else None
    }

    /** `Cache.putUserProfile`: stores a fresh entry under the profile's own login, replacing any older one. */
    method Put(profile: UserProfile)
      modifies this
      ensures entries == old(entries)[profile.user.login := profile]
      ensures expired == old(expired) - {profile.user.login}
      ensures !Invalid(profile.user.login) && Get(profile.user.login) == Some(profile)
    {
      entries := entries[profile.user.login := profile];
      expired := expired - {profile.user.login};
    }
  }

  /**
   * `getUserProfile`: a valid cached profile is returned as it is; otherwise the profile is
   * recomputed, stored, and read back from the cache under the requested username.
   */
  method GetUserProfile(cache: Cache, username: string, api: Api, timeStamp: int) returns (r: Outcome)
    modifies cache
    ensures !old(cache.Invalid(username)) ==>
      r == Ok(old(cache.entries)[username]) && unchanged(cache)
    ensures old(cache.Invalid(username)) && Compute(username, api, timeStamp).Failed? ==>
      r == Compute(username, api, timeStamp) && unchanged(cache)
    ensures old(cache.Invalid(username)) && Compute(username, api, timeStamp).Ok? ==>
      var stored := Compute(username, api, timeStamp).profile;
      && cache.entries == old(cache.entries)[stored.user.login := stored]
      && cache.expired == old(cache.expired) - {stored.user.login}
      && r == (if username in cache.entries then Ok(cache.entries[username]) else Failed(NotCached))
    ensures old(cache.Invalid(username)) && Compute(username, api, timeStamp).Ok? &&
            Compute(username, api, timeStamp).profile.user.login == username ==>
      r == Compute(username, api, timeStamp) && !cache.Invalid(username)
  {
    if cache.Invalid(username) {
      var computed := Compute(username, api, timeStamp);
      if computed.Failed? {
        return computed;
      }
      cache.Put(computed.profile);
    }
    var found := cache.Get(username);
    if found.None? {
      return Failed(NotCached);
    }
    r := Ok(found.value);
  }

  /**
   * `hasStarredRepo`: false for a null or empty username, true for a username with a cached
   * profile, and otherwise whether the username is among the reference repository's watchers;
   * a failed watcher fetch (None) answers false.
   */
  method HasStarredRepo(cache: Cache, username: Option<string>, watchers: Option<seq<string>>) returns (starred: bool)
    ensures starred <==> && username.Some? && username.value != ""
                         && (cache.Contains(username.value) || (watchers.Some? && username.value in watchers.value))
  {
    if username.None? || username.value == "" {
      return false;
    }
    if cache.Contains(username.value) {
      return true;
    }
    match watchers
    case None =>
      starred := false;
    case Some(logins) =>
      starred := username.value in logins;
  }

  /** Asking twice in a row computes at most once: the second call is a cache hit returning the same profile. */
  method GetUserProfileTwice(cache: Cache, username: string, api: Api, timeStamp: int, later: int)
    returns (first: Outcome, second: Outcome)
    modifies cache
    ensures first.Ok? && first.profile.user.login == username ==> second == first
  {
    first := GetUserProfile(cache, username, api, timeStamp);
    second := GetUserProfile(cache, username, api, later);
  }
}
