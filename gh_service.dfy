/**
 * `GhService`: the pool of GitHub clients built from the comma-separated token list, the four
 * per-category selectors that route a call to the client with the most remaining requests, and
 * the pool's total remaining quota.
 */
module GhService {
  import opened Wrappers

  const Separator: char := ','

  /** `GitHubClient.remainingRequests` before the client has seen any response. */
  const UnknownRemaining: int := -1

  /** The four service kinds the pool is wrapped in: `repos`, `commits`, `users`, `watchers`. */
  datatype Category = RepoCategory | CommitCategory | UserCategory | WatcherCategory

  /** A `GitHubClient` with its OAuth token and the quota count it last observed. */
  datatype Client = Client(token: string, remainingRequests: int)

  /** A service of one category bound to the client at index `client` of the pool. */
  datatype Service = Service(category: Category, client: nat)

  // ---------------------------------------------------------------------------
  // Tokens

  function Occurrences(s: string, c: char): nat {
    if s == [] then 0 else (if s[0] == c then 1 else 0) + Occurrences(s[1..], c)
  }

  /** Kotlin `split(",")`: every separator ends a part, so empty parts (leading, inner, trailing) are kept. */
  function Split(s: string): (parts: seq<string>)
    ensures |parts| == Occurrences(s, Separator) + 1
    ensures forall i :: 0 <= i < |parts| ==> Separator !in parts[i]
  {
    if s == [] then [[]]
    else
      var rest := Split(s[1..]);
      if s[0] == Separator then [[]] + rest
      else [[s[0]] + rest[0]] + rest[1..]
  }

  /** `joinToString(",")`. */
  function Join(parts: seq<string>): string {
    if parts == [] then []
    else if |parts| == 1 then parts[0]
    else parts[0] + [Separator] + Join(parts[1..])
  }

  /** Splitting loses nothing: joining the parts back with commas gives the token string. */
  lemma {:induction false} JoinSplit(s: string)
    ensures Join(Split(s)) == s
  {
    if s != [] {
      JoinSplit(s[1..]);
      var rest := Split(s[1..]);
      if s[0] == Separator {
        assert Split(s)[1..] == rest;
      } else {
        assert Split(s)[1..] == rest[1..];
        if |rest| > 1 {
          assert Join(rest) == rest[0] + [Separator] + Join(rest[1..]);
        }
      }
    }
  }

  /** Split(s) is the only comma-free list of parts that joins to s. */
  lemma {:induction false} SplitJoin(parts: seq<string>)
    requires |parts| >= 1
    requires forall i :: 0 <= i < |parts| ==> Separator !in parts[i]
    ensures Split(Join(parts)) == parts
  {
    if |parts| == 1 {
      assert parts[0] + [] == parts[0];
      PartSplit(parts[0], []);
      assert Split([]) == [[]];
    } else {
      var tail := [Separator] + Join(parts[1..]);
      SplitJoin(parts[1..]);
      assert tail[1..] == Join(parts[1..]);
      assert Split(tail) == [[]] + parts[1..];
      assert Join(parts) == parts[0] + tail;
      PartSplit(parts[0], tail);
      assert parts[0] + [] == parts[0];
    }
  }

  /** A comma-free prefix glues onto the first part of what follows it. */
  lemma {:induction false} PartSplit(p: string, s: string)
    requires Separator !in p
    ensures Split(p + s) == [p + Split(s)[0]] + Split(s)[1..]
  {
    if p != [] {
      assert (p + s)[0] == p[0] && p[0] != Separator;
      assert (p + s)[1..] == p[1..] + s;
      PartSplit(p[1..], s);
      assert [p[0]] + (p[1..] + Split(s)[0]) == p + Split(s)[0];
    } else {
      assert p + s == s;
      assert p + Split(s)[0] == Split(s)[0];
    }
  }

  /** `Config.getApiTokens()?.split(",") ?: listOf("")`: a missing token string gives one empty token. */
  function Tokens(config: Option<string>): (tokens: seq<string>)
    ensures |tokens| >= 1
    ensures config.None? ==> tokens == [""]
    ensures config.Some? ==> |tokens| == Occurrences(config.value, Separator) + 1
  {
    match config
    case None => [""]
    case Some(s) => Split(s)
  }

  // ---------------------------------------------------------------------------
  // The pool and its selectors

  /** `tokens.map { GitHubClient().apply { setOAuth2Token(it) } }`. */
  function NewPool(config: Option<string>): (pool: seq<Client>)
    ensures |pool| == |Tokens(config)| >= 1
    ensures forall i :: 0 <= i < |pool| ==> pool[i] == Client(Tokens(config)[i], UnknownRemaining)
  {
    var tokens := Tokens(config);
    seq(|tokens|, i requires 0 <= i < |tokens| => Client(tokens[i], UnknownRemaining))
  }

  /** `clients.map { XService(it) }`: the services of one category, the i-th wrapping client i. */
  function ServicesFor(pool: seq<Client>, category: Category): (services: seq<Service>)
    ensures |services| == |pool|
    ensures forall i :: 0 <= i < |pool| ==> services[i].category == category && services[i].client == i
  {
    seq(|pool|, i requires 0 <= i < |pool| => Service(category, i))
  }

  /** The first index of a largest key: the one kept by Kotlin's `maxBy`. */
  predicate IsFirstMax(keys: seq<int>, i: nat) {
    && i < |keys|
    && (forall j :: 0 <= j < |keys| ==> keys[j] <= keys[i])
    && (forall j :: 0 <= j < i ==> keys[j] < keys[i])
  }

  /**
   * Kotlin `maxBy`: scan left to right, replacing the candidate only by a strictly larger key;
   * null (here None) on an empty list.
   */
  function MaxBy(keys: seq<int>): (best: Option<nat>)
    ensures best.None? <==> keys == []
    ensures best.Some? ==> IsFirstMax(keys, best.value)
  {
    if keys == [] then None
    else
      var last := |keys| - 1;
      match MaxBy(keys[..last])
      case None => Some(0)
      case Some(b) => if keys[b] < keys[last] then Some(last) else Some(b)
  }

  /** There is exactly one first maximal index, so the selector's choice is fully determined. */
  lemma FirstMaxUnique(keys: seq<int>, i: nat)
    ensures MaxBy(keys) == Some(i) <==> IsFirstMax(keys, i)
  {
    if IsFirstMax(keys, i) {
      var b := MaxBy(keys).value;
      assert keys[b] == keys[i];
    }
  }

  function Remaining(pool: seq<Client>): (counts: seq<int>)
    ensures |counts| == |pool|
    ensures forall i :: 0 <= i < |pool| ==> counts[i] == pool[i].remainingRequests
  {
    seq(|pool|, i requires 0 <= i < |pool| => pool[i].remainingRequests)
  }

  /** `xServices.maxBy { it.client.remainingRequests }!!`: None stands for the `!!` failure on an empty pool. */
  function Select(pool: seq<Client>, category: Category): (chosen: Option<Service>)
    ensures chosen.None? <==> pool == []
    ensures chosen.Some? ==> chosen.value.category == category && chosen.value.client < |pool|
    ensures chosen.Some? ==> forall j :: 0 <= j < |pool| ==>
      pool[j].remainingRequests <= pool[chosen.value.client].remainingRequests
    ensures chosen.Some? ==> forall j :: 0 <= j < chosen.value.client ==>
      pool[j].remainingRequests < pool[chosen.value.client].remainingRequests
  {
    match MaxBy(Remaining(pool))
    case None => None
    case Some(i) => Some(ServicesFor(pool, category)[i])
  }

  /** Every selector finds a client in a pool built from any token configuration. */
  lemma SelectNewPool(config: Option<string>, category: Category)
    ensures Select(NewPool(config), category).Some?
  {
  }

  /** Before any response every counter is -1, so every selector picks the first client. */
  lemma SelectFreshPool(config: Option<string>, category: Category)
    ensures Select(NewPool(config), category) == Some(Service(category, 0))
  {
    var pool := NewPool(config);
    var chosen := Select(pool, category).value;
    assert pool[0].remainingRequests == pool[chosen.client].remainingRequests;
  }

  /** Quotas [10, 50, 50]: the first of the two largest wins. */
  lemma SelectTieExample()
    ensures Select([Client("a", 10), Client("b", 50), Client("c", 50)], RepoCategory) == Some(Service(RepoCategory, 1))
  {
    var pool := [Client("a", 10), Client("b", 50), Client("c", 50)];
    assert IsFirstMax(Remaining(pool), 1);
    FirstMaxUnique(Remaining(pool), 1);
  }

  // ---------------------------------------------------------------------------
  // The total quota

  /**
   * `clients.sumBy { it.remainingRequests }`. With no counter negative, the total is at least
   * every single client's count.
   */
  function RemainingRequests(pool: seq<Client>): (total: int)
    ensures (forall i :: 0 <= i < |pool| ==> pool[i].remainingRequests >= 0) ==>
      total >= 0 && forall i :: 0 <= i < |pool| ==> pool[i].remainingRequests <= total
  {
    if pool == [] then 0
    else
      assert forall i :: 1 <= i < |pool| ==> pool[1..][i - 1] == pool[i];
      pool[0].remainingRequests + RemainingRequests(pool[1..])
  }

  /** With no counter negative, the pool is exhausted exactly when every client is. */
  lemma {:induction false} RemainingRequestsZero(pool: seq<Client>)
    requires forall i :: 0 <= i < |pool| ==> pool[i].remainingRequests >= 0
    ensures RemainingRequests(pool) >= 0
    ensures RemainingRequests(pool) == 0 <==> forall i :: 0 <= i < |pool| ==> pool[i].remainingRequests == 0
  {
    if pool != [] {
      RemainingRequestsZero(pool[1..]);
      assert forall i :: 1 <= i < |pool| ==> pool[1..][i - 1] == pool[i];
    }
  }

  /** The total is additive over any split of the pool. */
  lemma {:induction false} RemainingRequestsConcat(a: seq<Client>, b: seq<Client>)
    ensures RemainingRequests(a + b) == RemainingRequests(a) + RemainingRequests(b)
  {
    if a != [] {
      assert (a + b)[1..] == a[1..] + b;
      RemainingRequestsConcat(a[1..], b);
    } else {
      assert a + b == b;
    }
  }

  /** A fresh pool reports minus its size: each client still holds the -1 placeholder. */
  lemma {:induction false} RemainingRequestsUnknown(pool: seq<Client>)
    requires forall i :: 0 <= i < |pool| ==> pool[i].remainingRequests == UnknownRemaining
    ensures RemainingRequests(pool) == -|pool|
  {
    if pool != [] {
      RemainingRequestsUnknown(pool[1..]);
    }
  }

  lemma FreshPoolTotal(config: Option<string>)
    ensures RemainingRequests(NewPool(config)) == -|Tokens(config)|
  {
    RemainingRequestsUnknown(NewPool(config));
  }
}
