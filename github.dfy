/** The repository source (`src/lib/github.ts`): a bounded retry loop
    around the user-repositories request, the filter / map / sort / slice
    pipeline that turns the reply into ranked repositories, the conversion
    to `Project`, and the never-failing wrapper with its fallback list.

    The network is abstracted: attempt number `k` of a run is answered by
    `attempts[k]`, which says how long the request took and what came back.
    The clock is the explicit `now` each operation is given; sleeps move it
    forward. */
module GitHub {
  import opened Wrappers
  import opened Text
  import opened Seqs
  import opened Ranking
  import opened Content
  import opened RateLimit
  import opened Retry

  const ApiUrl := "https://api.github.com"
  /** A reset wait is taken only when the reset is less than this far away. */
  const MaxResetWaitMs: int := 60000
  const DefaultColor := "#6b7280"

  /** The configured values the module reads. */
  datatype Config = Config(
    username: string,
    maxRepos: nat,
    excludeRepos: seq<string>,
    featuredRepos: seq<string>,
    showForks: bool)

  /** One element of the API reply, with JSON nulls as `None`. */
  datatype ApiRepository = ApiRepository(
    name: string,
    description: Option<string>,
    htmlUrl: string,
    homepage: Option<string>,
    language: Option<string>,
    stargazersCount: Option<int>,
    forksCount: Option<int>,
    updatedAt: Instant,
    topics: Option<seq<string>>,
    fork: bool)

  datatype Language = Language(name: string, color: string)

  datatype Repository = Repository(
    name: string,
    description: string,
    url: string,
    homepageUrl: Option<string>,
    primaryLanguage: Language,
    stargazerCount: int,
    forkCount: int,
    updatedAt: Instant,
    topics: seq<string>)

  /** What one request produced: a successful reply with its decoded list,
      a reply whose status is not in 200..299, or a rejected `fetch`
      (network failure, undecodable body). `resetHeader` is the
      `X-RateLimit-Reset` header read as an integer number of seconds;
      `None` when it is absent, empty or not a number. */
  datatype Response =
    | Ok(repos: seq<ApiRepository>)
    | HttpError(status: nat, statusText: string, resetHeader: Option<int>)
    | NetworkError

  datatype Attempt = Attempt(latency: nat, response: Response)

  /** What the loop throws: the `GitHubAPIError`s it raises, each with the
      message and status the code gives it, or any other error. */
  datatype FetchError =
    | RateLimited(rateLimitReset: Option<int>)
    | UserNotFound(username: string)
    | RequestFailed(code: nat, statusText: string)
    | MaxRetriesExceeded
    | OtherError
  {
    /** The `status` field of the error. */
    function Status(): Option<nat> {
      match this
      case RateLimited(_) => Some(403)
      case UserNotFound(_) => Some(404)
      case RequestFailed(code, _) => Some(code)
      case MaxRetriesExceeded => None
      case OtherError => None
    }

    /** The error's message; the message of a foreign error is not modelled. */
    function Message(): string {
      match this
      case RateLimited(_) => "GitHub API rate limit exceeded"
      case UserNotFound(name) => "GitHub user '" + name + "' not found"
      case RequestFailed(code, text) => "GitHub API request failed: " + NatToString(code) + " " + text
      case MaxRetriesExceeded => "Max retries exceeded"
      case OtherError => ""
    }
  }

  /** `getLanguageColor`: the GitHub colour of a language, grey otherwise. */
  function LanguageColor(language: Option<string>): (color: string)
    ensures |color| == 7 && color[0] == '#'
    ensures language.None? ==> color == DefaultColor
  {
    var colors := map[
      "JavaScript" := "#f1e05a", "TypeScript" := "#2b7489", "Python" := "#3572A5",
      "Java" := "#b07219", "C++" := "#f34b7d", "C#" := "#239120", "PHP" := "#4F5D95",
      "Ruby" := "#701516", "Go" := "#00ADD8", "Rust" := "#dea584", "Swift" := "#ffac45",
      "Kotlin" := "#F18E33", "Dart" := "#00B4AB", "HTML" := "#e34c26", "CSS" := "#1572B6",
      "Vue" := "#2c3e50", "Svelte" := "#ff3e00", "Shell" := "#89e051", "Dockerfile" := "#384d54"];
    var key := language.GetOr("");
    if key in colors then colors[key] else DefaultColor
  }

  /** The request the loop sends: `per_page` asks for twice the number kept. */
  function RequestUrl(username: string, maxRepos: nat): string {
    RequestPrefix(username) + NatToString(maxRepos * 2)
  }

  function RequestPrefix(username: string): string {
    ApiUrl + "/users/" + username + "/repos?sort=updated&per_page="
  }

  /** The `per_page` value of the request reads back as `2 * maxRepos`. */
  lemma RequestUrlPerPage(username: string, maxRepos: nat)
    ensures StartsWith(RequestUrl(username, maxRepos), RequestPrefix(username))
    ensures var s := RequestUrl(username, maxRepos)[|RequestPrefix(username)|..];
            (forall i :: 0 <= i < |s| ==> IsDigit(s[i])) && ParseNat(s) == 2 * maxRepos
  {
    var p := RequestPrefix(username);
    var d := NatToString(maxRepos * 2);
    assert (p + d)[..|p|] == p;
    assert (p + d)[|p|..] == d;
    ParseNatToString(maxRepos * 2);
  }

  // ---------------------------------------------------------------- pipeline

  /** The filter of the reply: forks only when shown, no excluded name, and
      a description that is neither null nor empty. */
  predicate Keep(cfg: Config, raw: ApiRepository) {
    (cfg.showForks || !raw.fork)
    && raw.name !in cfg.excludeRepos
    && raw.description.Some? && raw.description.value != ""
  }

  function KeepIn(cfg: Config): ApiRepository -> bool {
    raw => Keep(cfg, raw)
  }

  /** The mapping step, with its defaults for null and empty fields. */
  function ToRepository(raw: ApiRepository): (r: Repository)
    ensures r.primaryLanguage.name != ""
    ensures r.homepageUrl != Some("")
    ensures |r.primaryLanguage.color| == 7
  {
    Repository(
      raw.name,
      raw.description.GetOr(""),
      raw.htmlUrl,
      if raw.homepage == Some("") then None else raw.homepage,
      Language(
        if raw.language.None? || raw.language == Some("") then "Unknown" else raw.language.value,
        LanguageColor(raw.language)),
      raw.stargazersCount.GetOr(0),
      raw.forksCount.GetOr(0),
      raw.updatedAt,
      raw.topics.GetOr([]))
  }

  predicate IsFeatured(cfg: Config, name: string) {
    name in cfg.featuredRepos
  }

  /** The sort key the comparator orders by: featured repositories first, in
      the order of the featured list; then stars descending; then the
      update time descending. */
  function RepoRank(cfg: Config, r: Repository): Rank {
    if IsFeatured(cfg, r.name) then Rank(0, Seqs.IndexOf(cfg.featuredRepos, r.name), 0)
    else Rank(1, -r.stargazerCount, -r.updatedAt.millis)
  }

  function RankIn(cfg: Config): Repository -> Rank {
    r => RepoRank(cfg, r)
  }

  /** The comparator passed to `sort`, as written. */
  function CompareRepos(cfg: Config, a: Repository, b: Repository): int {
    var aFeatured := IsFeatured(cfg, a.name);
    var bFeatured := IsFeatured(cfg, b.name);
    if aFeatured && !bFeatured then -1
    else if !aFeatured && bFeatured then 1
    else if aFeatured && bFeatured then
      Seqs.IndexOf(cfg.featuredRepos, a.name) - Seqs.IndexOf(cfg.featuredRepos, b.name)
    else if b.stargazerCount != a.stargazerCount then b.stargazerCount - a.stargazerCount
    else b.updatedAt.millis - a.updatedAt.millis
  }

  /** The comparator orders exactly as the rank key does, so a stable sort
      by the comparator is the stable sort by the key. */
  lemma CompareReposIsRankOrder(cfg: Config, a: Repository, b: Repository)
    ensures CompareRepos(cfg, a, b) <= 0 <==> RankLe(RepoRank(cfg, a), RepoRank(cfg, b))
    ensures CompareRepos(cfg, a, b) == 0 <==> RepoRank(cfg, a) == RepoRank(cfg, b)
  {
    if IsFeatured(cfg, a.name) && IsFeatured(cfg, b.name) {
      var ia := Seqs.IndexOf(cfg.featuredRepos, a.name);
      var ib := Seqs.IndexOf(cfg.featuredRepos, b.name);
      assert RepoRank(cfg, a) == Rank(0, ia, 0) && RepoRank(cfg, b) == Rank(0, ib, 0);
    }
  }

  /** The whole reply-to-result pipeline of a successful attempt. */
  function RankRepositories(cfg: Config, raws: seq<ApiRepository>): (r: seq<Repository>)
    ensures |r| <= cfg.maxRepos
  {
    Take(SortBy(Map(Filter(raws, KeepIn(cfg)), ToRepository), RankIn(cfg)), cfg.maxRepos)
  }

  /** Nothing kept is lost below the limit: the result holds `maxRepos`
      repositories, or all the kept ones when there are fewer. */
  lemma RankedLength(cfg: Config, raws: seq<ApiRepository>)
    ensures var n := |Filter(raws, KeepIn(cfg))|;
            |RankRepositories(cfg, raws)| == if n <= cfg.maxRepos then n else cfg.maxRepos
  {
  }

  /** The filter keeps exactly the repositories meeting the three conditions. */
  lemma FilterKeeps(cfg: Config, raws: seq<ApiRepository>, raw: ApiRepository)
    ensures raw in Filter(raws, KeepIn(cfg))
        <==> raw in raws && (cfg.showForks || !raw.fork) && raw.name !in cfg.excludeRepos
             && raw.description.Some? && raw.description.value != ""
  {
    FilterMembers(raws, KeepIn(cfg), raw);
  }

  /** Every ranked repository is the mapping of a kept repository of the reply. */
  lemma RankedFromKept(cfg: Config, raws: seq<ApiRepository>, x: Repository)
    requires x in RankRepositories(cfg, raws)
    ensures exists raw :: raw in raws && Keep(cfg, raw) && ToRepository(raw) == x
  {
    var kept := Filter(raws, KeepIn(cfg));
    var mapped := Map(kept, ToRepository);
    var sorted := SortBy(mapped, RankIn(cfg));
    SortByPermutes(mapped, RankIn(cfg));
    assert x in sorted;
    assert x in multiset(sorted);
    assert x in mapped;
    var k :| 0 <= k < |mapped| && mapped[k] == x;
    FilterMembers(raws, KeepIn(cfg), kept[k]);
  }

  /** The order of the result, pair by pair: featured before non-featured,
      featured by their place in the featured list, the rest by stars and
      then by update time, both descending. */
  lemma RankedOrder(cfg: Config, raws: seq<ApiRepository>, i: int, j: int)
    requires 0 <= i < j < |RankRepositories(cfg, raws)|
    ensures var r := RankRepositories(cfg, raws);
            IsFeatured(cfg, r[j].name) ==> IsFeatured(cfg, r[i].name)
    ensures var r := RankRepositories(cfg, raws);
            IsFeatured(cfg, r[i].name) && IsFeatured(cfg, r[j].name) ==>
              Seqs.IndexOf(cfg.featuredRepos, r[i].name) <= Seqs.IndexOf(cfg.featuredRepos, r[j].name)
    ensures var r := RankRepositories(cfg, raws);
            !IsFeatured(cfg, r[i].name) && !IsFeatured(cfg, r[j].name) ==>
              r[i].stargazerCount >= r[j].stargazerCount
              && (r[i].stargazerCount == r[j].stargazerCount ==> r[i].updatedAt.millis >= r[j].updatedAt.millis)
  {
    var sorted := SortBy(Map(Filter(raws, KeepIn(cfg)), ToRepository), RankIn(cfg));
    SortBySorted(Map(Filter(raws, KeepIn(cfg)), ToRepository), RankIn(cfg));
    var r := RankRepositories(cfg, raws);
    assert r == sorted[..|r|];
    assert r[i] == sorted[i] && r[j] == sorted[j];
    assert RankLe(RankIn(cfg)(sorted[i]), RankIn(cfg)(sorted[j]));
  }

  /** The result is drawn from the kept, mapped reply, with no repository
      more often than it occurs there. */
  lemma RankedFromReply(cfg: Config, raws: seq<ApiRepository>)
    ensures multiset(RankRepositories(cfg, raws)) <= multiset(Map(Filter(raws, KeepIn(cfg)), ToRepository))
  {
    var mapped := Map(Filter(raws, KeepIn(cfg)), ToRepository);
    var n := if |mapped| <= cfg.maxRepos then |mapped| else cfg.maxRepos;
    SortedHeadBest(mapped, RankIn(cfg), n);
    assert RankRepositories(cfg, raws) == SortBy(mapped, RankIn(cfg))[..n];
  }

  /** The limit keeps the best: a kept repository left out of the result
      ranks at or after every one in it. It is featured only if the one in
      the result is, no earlier in the featured list when both are, and,
      when neither is, has no more stars, nor on equal stars a later update. */
  lemma RankedBest(cfg: Config, raws: seq<ApiRepository>, x: Repository, i: int)
    requires x in Map(Filter(raws, KeepIn(cfg)), ToRepository) && x !in RankRepositories(cfg, raws)
    requires 0 <= i < |RankRepositories(cfg, raws)|
    ensures var r := RankRepositories(cfg, raws);
            IsFeatured(cfg, x.name) ==> IsFeatured(cfg, r[i].name)
    ensures var r := RankRepositories(cfg, raws);
            IsFeatured(cfg, r[i].name) && IsFeatured(cfg, x.name) ==>
              Seqs.IndexOf(cfg.featuredRepos, r[i].name) <= Seqs.IndexOf(cfg.featuredRepos, x.name)
    ensures var r := RankRepositories(cfg, raws);
            !IsFeatured(cfg, r[i].name) && !IsFeatured(cfg, x.name) ==>
              r[i].stargazerCount >= x.stargazerCount
              && (r[i].stargazerCount == x.stargazerCount ==> r[i].updatedAt.millis >= x.updatedAt.millis)
  {
    var mapped := Map(Filter(raws, KeepIn(cfg)), ToRepository);
    var n := if |mapped| <= cfg.maxRepos then |mapped| else cfg.maxRepos;
    var r := RankRepositories(cfg, raws);
    SortedHeadBest(mapped, RankIn(cfg), n);
    assert r == SortBy(mapped, RankIn(cfg))[..n];
    assert RankLe(RankIn(cfg)(SortBy(mapped, RankIn(cfg))[i]), RankIn(cfg)(x));
    assert r[i] == SortBy(mapped, RankIn(cfg))[i];
  }

  // ---------------------------------------------------------------- retry loop

  /** The error an unsuccessful reply is turned into. */
  function Thrown(username: string, response: Response): (e: FetchError)
    requires !response.Ok?
    ensures response.HttpError? ==> e.Status() == Some(response.status)
    ensures response.NetworkError? ==> e == OtherError
    ensures e.RateLimited? && e.rateLimitReset.Some? ==>
              response.resetHeader.Some? && e.rateLimitReset.value == response.resetHeader.value * 1000
  {
    match response
    case NetworkError => OtherError
    case HttpError(status, text, header) =>
      if status == 403 then RateLimited(if header.Some? then Some(header.value * 1000) else None)
      else if status == 404 then UserNotFound(username)
      else RequestFailed(status, text)
  }

  /** What the handler does after a failed attempt. */
  datatype Step = WaitForReset(ms: nat) | Rethrow | Backoff(ms: nat)
  {
    /** How long the handler sleeps before the next round; a rethrow ends the loop. */
    function Sleep(): nat {
      match this
      case WaitForReset(ms) => ms
      case Rethrow => 0
      case Backoff(ms) => ms
    }
  }

  predicate IsClientStatus(e: FetchError) {
    e.Status().Some? && IsClientCode(e.Status().value)
  }

  /** The `catch` block, given the already incremented retry count and the
      time at which the error is handled. */
  function Handle(e: FetchError, retries: nat, now: int): (s: Step)
    ensures s.WaitForReset? ==> e.RateLimited? && 0 < s.ms < MaxResetWaitMs
    ensures s.Backoff? ==> !IsClientStatus(e) && retries < MaxRetries && s.ms == BackoffMs(retries)
    ensures IsClientStatus(e) && !s.WaitForReset? ==> s.Rethrow?
    ensures !IsClientStatus(e) && retries >= MaxRetries ==> s.Rethrow?
    ensures s.Rethrow? ==> IsClientStatus(e) || retries >= MaxRetries
  {
    if e.RateLimited? && e.rateLimitReset.Some? && e.rateLimitReset.value != 0
       && 0 < e.rateLimitReset.value - now < MaxResetWaitMs
    then WaitForReset(e.rateLimitReset.value - now)
    else if IsClientStatus(e) then Rethrow
    else if retries >= MaxRetries then Rethrow
    else Backoff(BackoffMs(retries))
  }

  /** The observable course of one call: the URL it requests, its outcome,
      the time each request went out, the handler's step after each failed
      attempt it did not rethrow, and the time the call returns. */
  datatype Trace = Trace(
    url: string,
    result: Result<seq<Repository>, FetchError>,
    sentAt: seq<int>,
    steps: seq<Step>,
    finish: int)

  predicate IsServerFailure(r: Response) {
    r.NetworkError? || (r.HttpError? && !(400 <= r.status < 500))
  }

  predicate AllServerFailures(attempts: seq<Attempt>)
    requires |attempts| >= MaxRetries
  {
    forall k :: 0 <= k < MaxRetries ==> IsServerFailure(attempts[k].response)
  }

  /** The time the reply to request `k` comes back, which is when the
      handler decides what to do about a failed one. */
  function HandledAt(attempts: seq<Attempt>, sentAt: seq<int>, k: nat): int
    requires k < |sentAt| && k < |attempts|
  {
    sentAt[k] + attempts[k].latency
  }

  /** The time round `k` of the loop starts: the call's start, or the end of
      the handler's sleep after request `k - 1`. */
  function RoundStart(attempts: seq<Attempt>, sentAt: seq<int>, steps: seq<Step>, now0: int, k: nat): int
    requires k <= |sentAt| && k <= |steps| && k <= |attempts|
  {
    if k == 0 then now0 else HandledAt(attempts, sentAt, k - 1) + steps[k - 1].Sleep()
  }

  /** Request `k` went out when the limiter let it, its round having
      started where the previous round's sleep ended. */
  predicate SentOnTime(attempts: seq<Attempt>, last0: int, now0: int, sentAt: seq<int>, steps: seq<Step>, k: nat)
    requires k < |sentAt| && k <= |steps| && k <= |attempts|
  {
    LetThrough(sentAt, last0, k, RoundStart(attempts, sentAt, steps, now0, k))
  }

  /** Request `k` failed, and `steps[k]` is the sleep the handler chose for
      its error, that retry count and the time its reply arrived. */
  predicate SleptAfter(username: string, attempts: seq<Attempt>, sentAt: seq<int>, steps: seq<Step>, k: nat)
    requires k < |steps| && k < |sentAt| && k < |attempts|
  {
    !attempts[k].response.Ok?
    && steps[k] == Handle(Thrown(username, attempts[k].response), k + 1, HandledAt(attempts, sentAt, k))
    && !steps[k].Rethrow?
  }

  /** Requests `0 .. |sentAt| - 1` went out on time, and the first `|steps|`
      of them failed and were slept on. */
  ghost predicate Paced(username: string, attempts: seq<Attempt>, last0: int, now0: int,
                        sentAt: seq<int>, steps: seq<Step>)
    requires |attempts| >= MaxRetries
  {
    |sentAt| <= MaxRetries
    && |sentAt| - 1 <= |steps| <= |sentAt|
    && (forall k :: 0 <= k < |steps| ==> SleptAfter(username, attempts, sentAt, steps, k))
    && (forall k :: 0 <= k < |sentAt| ==> SentOnTime(attempts, last0, now0, sentAt, steps, k))
  }

  /** What the loop promises about the call that produced `t`, started at
      `now0` with the limiter's record at `last0`:
      - it requests the URL `RequestUrl` builds;
      - at most three requests, each sent when the limiter lets it, each
        failure but the last answered by the handler's step for it;
      - success is the ranked list of the last reply, returned on arrival;
      - any other failure is the last reply's error, which the handler
        rethrows at the time it arrives;
      - "Max retries exceeded" comes after the third request's sleep. */
  ghost predicate FetchPromise(cfg: Config, username: string, attempts: seq<Attempt>,
                               last0: int, now0: int, t: Trace)
    requires |attempts| >= MaxRetries
    ensures FetchPromise(cfg, username, attempts, last0, now0, t) ==>
              1 <= |t.sentAt| <= MaxRetries && t.finish >= t.sentAt[|t.sentAt| - 1]
  {
    t.url == RequestUrl(username, cfg.maxRepos)
    && Paced(username, attempts, last0, now0, t.sentAt, t.steps)
    && 1 <= |t.sentAt|
    && |t.steps| == |t.sentAt| - (if t.result == Failure(MaxRetriesExceeded) then 0 else 1)
    && var n := |t.sentAt|;
       var done := HandledAt(attempts, t.sentAt, n - 1);
       (t.result.Success? ==>
          attempts[n - 1].response.Ok?
          && t.result.value == RankRepositories(cfg, attempts[n - 1].response.repos)
          && t.finish == done)
       && (t.result.Failure? && t.result.error != MaxRetriesExceeded ==>
          !attempts[n - 1].response.Ok?
          && t.result.error == Thrown(username, attempts[n - 1].response)
          && Handle(t.result.error, n, done).Rethrow?
          && t.finish == done)
       && (t.result == Failure(MaxRetriesExceeded) ==>
          n == MaxRetries && t.finish == RoundStart(attempts, t.sentAt, t.steps, now0, n))
  }

  /** Sending the next request when the limiter lets it keeps the record paced. */
  lemma PacedSend(username: string, attempts: seq<Attempt>, last0: int, now0: int,
                  sentAt: seq<int>, steps: seq<Step>)
    requires |attempts| >= MaxRetries && Paced(username, attempts, last0, now0, sentAt, steps)
    requires |sentAt| == |steps| < MaxRetries
    ensures var start := RoundStart(attempts, sentAt, steps, now0, |sentAt|);
            Paced(username, attempts, last0, now0,
                  sentAt + [start + DelayFor(start, LastBefore(sentAt, last0, |sentAt|))], steps)
  {
    var start := RoundStart(attempts, sentAt, steps, now0, |sentAt|);
    var s := sentAt + [start + DelayFor(start, LastBefore(sentAt, last0, |sentAt|))];
    forall k | 0 <= k < |steps| ensures SleptAfter(username, attempts, s, steps, k) {
      assert SleptAfter(username, attempts, sentAt, steps, k);
      assert s[k] == sentAt[k];
    }
    forall k | 0 <= k < |s| ensures SentOnTime(attempts, last0, now0, s, steps, k) {
      if k > 0 {
        assert s[k - 1] == sentAt[k - 1];
      }
      assert k < |sentAt| ==> SentOnTime(attempts, last0, now0, sentAt, steps, k) && s[k] == sentAt[k];
    }
  }

  /** Recording the handler's step for the last request keeps the record paced. */
  lemma PacedStep(username: string, attempts: seq<Attempt>, last0: int, now0: int,
                  sentAt: seq<int>, steps: seq<Step>)
    requires |attempts| >= MaxRetries && Paced(username, attempts, last0, now0, sentAt, steps)
    requires |sentAt| == |steps| + 1
    requires !attempts[|steps|].response.Ok?
    requires !Handle(Thrown(username, attempts[|steps|].response), |steps| + 1, HandledAt(attempts, sentAt, |steps|)).Rethrow?
    ensures Paced(username, attempts, last0, now0, sentAt,
                  steps + [Handle(Thrown(username, attempts[|steps|].response), |steps| + 1, HandledAt(attempts, sentAt, |steps|))])
  {
    var st := steps + [Handle(Thrown(username, attempts[|steps|].response), |steps| + 1, HandledAt(attempts, sentAt, |steps|))];
    forall k | 0 <= k < |st| ensures SleptAfter(username, attempts, sentAt, st, k) {
      assert k < |steps| ==> SleptAfter(username, attempts, sentAt, steps, k) && st[k] == steps[k];
    }
    forall k | 0 <= k < |sentAt| ensures SentOnTime(attempts, last0, now0, sentAt, st, k) {
      assert SentOnTime(attempts, last0, now0, sentAt, steps, k);
      if k > 0 {
        assert st[k - 1] == steps[k - 1];
      }
    }
  }

  /** The loop returning on a successful reply keeps its promise. */
  lemma ConcludeSuccess(cfg: Config, username: string, attempts: seq<Attempt>, last0: int, now0: int,
                        sentAt: seq<int>, steps: seq<Step>)
    requires |attempts| >= MaxRetries && Paced(username, attempts, last0, now0, sentAt, steps)
    requires |sentAt| == |steps| + 1 && attempts[|steps|].response.Ok?
    ensures FetchPromise(cfg, username, attempts, last0, now0,
              Trace(RequestUrl(username, cfg.maxRepos), Success(RankRepositories(cfg, attempts[|steps|].response.repos)),
                    sentAt, steps, HandledAt(attempts, sentAt, |steps|)))
  {
  }

  /** The loop rethrowing a reply's error keeps its promise. */
  lemma ConcludeRethrow(cfg: Config, username: string, attempts: seq<Attempt>, last0: int, now0: int,
                        sentAt: seq<int>, steps: seq<Step>)
    requires |attempts| >= MaxRetries && Paced(username, attempts, last0, now0, sentAt, steps)
    requires |sentAt| == |steps| + 1 && !attempts[|steps|].response.Ok?
    requires Handle(Thrown(username, attempts[|steps|].response), |steps| + 1, HandledAt(attempts, sentAt, |steps|)).Rethrow?
    ensures FetchPromise(cfg, username, attempts, last0, now0,
              Trace(RequestUrl(username, cfg.maxRepos), Failure(Thrown(username, attempts[|steps|].response)),
                    sentAt, steps, HandledAt(attempts, sentAt, |steps|)))
  {
  }

  /** The loop running out of rounds keeps its promise. */
  lemma ConcludeExhausted(cfg: Config, username: string, attempts: seq<Attempt>, last0: int, now0: int,
                          sentAt: seq<int>, steps: seq<Step>)
    requires |attempts| >= MaxRetries && Paced(username, attempts, last0, now0, sentAt, steps)
    requires |sentAt| == |steps| == MaxRetries
    ensures FetchPromise(cfg, username, attempts, last0, now0,
              Trace(RequestUrl(username, cfg.maxRepos), Failure(MaxRetriesExceeded),
                    sentAt, steps, RoundStart(attempts, sentAt, steps, now0, MaxRetries)))
  {
  }

  /** `fetchGitHubRepositories`: the retry loop, with the limiter it shares
      with other calls. */
  method FetchRepositories(cfg: Config, username: string, limiter: RateLimiter, attempts: seq<Attempt>, now0: int)
    returns (t: Trace)
    requires |attempts| >= MaxRetries
    modifies limiter
    ensures FetchPromise(cfg, username, attempts, old(limiter.lastRequest), now0, t)
    ensures limiter.lastRequest == t.sentAt[|t.sentAt| - 1]
  {
    ghost var last0 := limiter.lastRequest;
    var url := RequestUrl(username, cfg.maxRepos);
    var retries: nat := 0;
    var now := now0;
    var sentAt: seq<int> := [];
    var steps: seq<Step> := [];
    while retries < MaxRetries
      invariant retries == |sentAt| == |steps|
      invariant Paced(username, attempts, last0, now0, sentAt, steps)
      invariant now == RoundStart(attempts, sentAt, steps, now0, retries)
      invariant limiter.lastRequest == LastBefore(sentAt, last0, retries)
      decreases MaxRetries - retries
    {
      var waited := limiter.WaitIfNeeded(now);
      PacedSend(username, attempts, last0, now0, sentAt, steps);
      now := now + waited;
      sentAt := sentAt + [now];
      var a := attempts[retries];
      now := now + a.latency;
      assert now == HandledAt(attempts, sentAt, retries);
      if a.response.Ok? {
        ConcludeSuccess(cfg, username, attempts, last0, now0, sentAt, steps);
        return Trace(url, Success(RankRepositories(cfg, a.response.repos)), sentAt, steps, now);
      }
      var e := Thrown(username, a.response);
      var step := Handle(e, retries + 1, now);
      if step.Rethrow? {
        ConcludeRethrow(cfg, username, attempts, last0, now0, sentAt, steps);
        return Trace(url, Failure(e), sentAt, steps, now);
      }
      PacedStep(username, attempts, last0, now0, sentAt, steps);
      steps := steps + [step];
      retries := retries + 1;
      now := now + step.ms;
    }
    ConcludeExhausted(cfg, username, attempts, last0, now0, sentAt, steps);
    return Trace(url, Failure(MaxRetriesExceeded), sentAt, steps, now);
  }

  /** A request whose reply is a success, or an error the handler rethrows,
      is the last one of the call, and fixes its outcome. */
  lemma EndsAt(cfg: Config, username: string, attempts: seq<Attempt>, last0: int, now0: int, t: Trace, k: nat)
    requires |attempts| >= MaxRetries && FetchPromise(cfg, username, attempts, last0, now0, t)
    requires k < |t.sentAt|
    requires attempts[k].response.Ok?
             || Handle(Thrown(username, attempts[k].response), k + 1, HandledAt(attempts, t.sentAt, k)).Rethrow?
    ensures |t.sentAt| == k + 1 && |t.steps| == k
    ensures t.finish == HandledAt(attempts, t.sentAt, k)
    ensures t.result == if attempts[k].response.Ok? then Success(RankRepositories(cfg, attempts[k].response.repos))
                        else Failure(Thrown(username, attempts[k].response))
  {
    assert k < |t.steps| ==> SleptAfter(username, attempts, t.sentAt, t.steps, k);
  }

  /** A request whose reply is an error the handler sleeps on is followed by
      another, or, after the third, by "Max retries exceeded". */
  lemma GoesOnAt(cfg: Config, username: string, attempts: seq<Attempt>, last0: int, now0: int, t: Trace, k: nat)
    requires |attempts| >= MaxRetries && FetchPromise(cfg, username, attempts, last0, now0, t)
    requires k < |t.sentAt| && !attempts[k].response.Ok?
    requires !Handle(Thrown(username, attempts[k].response), k + 1, HandledAt(attempts, t.sentAt, k)).Rethrow?
    ensures k < |t.steps|
    ensures t.steps[k] == Handle(Thrown(username, attempts[k].response), k + 1, HandledAt(attempts, t.sentAt, k))
    ensures k + 1 < MaxRetries ==> k + 1 < |t.sentAt|
    ensures k + 1 == MaxRetries ==>
              t.result == Failure(MaxRetriesExceeded)
              && t.finish == RoundStart(attempts, t.sentAt, t.steps, now0, MaxRetries)
  {
    assert k < |t.steps| ==> SleptAfter(username, attempts, t.sentAt, t.steps, k);
  }

  /** Two courses of the call agreeing on the requests and steps before
      request `k` agree everywhere. */
  lemma {:induction false} AgreeFrom(cfg: Config, username: string, attempts: seq<Attempt>,
                                     last0: int, now0: int, t1: Trace, t2: Trace, k: nat)
    requires |attempts| >= MaxRetries
    requires FetchPromise(cfg, username, attempts, last0, now0, t1)
    requires FetchPromise(cfg, username, attempts, last0, now0, t2)
    requires k < |t1.sentAt| && k < |t2.sentAt|
    requires t1.sentAt[..k] == t2.sentAt[..k] && t1.steps[..k] == t2.steps[..k]
    ensures t1 == t2
    decreases MaxRetries - k
  {
    if k > 0 {
      assert t1.sentAt[k - 1] == t1.sentAt[..k][k - 1] == t2.sentAt[k - 1];
      assert t1.steps[k - 1] == t1.steps[..k][k - 1] == t2.steps[k - 1];
    }
    assert SentOnTime(attempts, last0, now0, t1.sentAt, t1.steps, k);
    assert SentOnTime(attempts, last0, now0, t2.sentAt, t2.steps, k);
    assert t1.sentAt[k] == t2.sentAt[k];
    var done := HandledAt(attempts, t1.sentAt, k);
    assert done == HandledAt(attempts, t2.sentAt, k);
    var r := attempts[k].response;
    var s1 := t1.sentAt[..k] + [t1.sentAt[k]];
    assert s1 == t2.sentAt[..k] + [t2.sentAt[k]];
    if r.Ok? || Handle(Thrown(username, r), k + 1, done).Rethrow? {
      EndsAt(cfg, username, attempts, last0, now0, t1, k);
      EndsAt(cfg, username, attempts, last0, now0, t2, k);
      assert t1.sentAt == s1 == t2.sentAt;
      assert t1.steps == t1.steps[..k] && t2.steps == t2.steps[..k];
    } else {
      GoesOnAt(cfg, username, attempts, last0, now0, t1, k);
      GoesOnAt(cfg, username, attempts, last0, now0, t2, k);
      var st := t1.steps[..k] + [t1.steps[k]];
      assert st == t2.steps[..k] + [t2.steps[k]];
      if k + 1 == MaxRetries {
        assert t1.sentAt == s1 == t2.sentAt;
        assert t1.steps == st == t2.steps;
      } else {
        assert t1.sentAt[..k + 1] == s1 == t2.sentAt[..k + 1];
        assert t1.steps[..k + 1] == st == t2.steps[..k + 1];
        AgreeFrom(cfg, username, attempts, last0, now0, t1, t2, k + 1);
      }
    }
  }

  /** The promise pins the call down: the replies, the limiter's record and
      the start time leave exactly one possible course of the call. */
  lemma PromiseUnique(cfg: Config, username: string, attempts: seq<Attempt>,
                      last0: int, now0: int, t1: Trace, t2: Trace)
    requires |attempts| >= MaxRetries
    requires FetchPromise(cfg, username, attempts, last0, now0, t1)
    requires FetchPromise(cfg, username, attempts, last0, now0, t2)
    ensures t1 == t2
  {
    AgreeFrom(cfg, username, attempts, last0, now0, t1, t2, 0);
  }

  /** Every request goes out at least a second after the one before it (or,
      for the first, after the limiter's record), and never before the
      loop gets to it. */
  lemma RequestsSpaced(cfg: Config, username: string, attempts: seq<Attempt>,
                       last0: int, now0: int, t: Trace, k: nat)
    requires |attempts| >= MaxRetries && FetchPromise(cfg, username, attempts, last0, now0, t)
    requires k < |t.sentAt|
    ensures k == 0 ==> t.sentAt[0] >= last0 + MinDelayMs && t.sentAt[0] >= now0
    ensures k > 0 ==> t.sentAt[k] >= t.sentAt[k - 1] + MinDelayMs
                      && t.sentAt[k] >= HandledAt(attempts, t.sentAt, k - 1) + t.steps[k - 1].Sleep()
  {
    assert SentOnTime(attempts, last0, now0, t.sentAt, t.steps, k);
  }

  /** The sleeps the handler takes: after the `k`-th failure a backoff of
      `2^k` seconds, so 2000 ms and then 4000 ms, for an error that is not a
      client error; a reset wait under a minute only for a 403. */
  lemma StepsBounded(cfg: Config, username: string, attempts: seq<Attempt>,
                     last0: int, now0: int, t: Trace, k: nat)
    requires |attempts| >= MaxRetries && FetchPromise(cfg, username, attempts, last0, now0, t)
    requires k < |t.steps|
    ensures !attempts[k].response.Ok?
    ensures t.steps[k].Backoff? ==> k < 2 && t.steps[k].ms == (if k == 0 then 2000 else 4000)
                                    && !IsClientStatus(Thrown(username, attempts[k].response))
    ensures t.steps[k].WaitForReset? ==> 0 < t.steps[k].ms < MaxResetWaitMs
                                         && attempts[k].response.HttpError? && attempts[k].response.status == 403
  {
    assert SleptAfter(username, attempts, t.sentAt, t.steps, k);
  }

  /** "Max retries exceeded" is reached only by waiting out a reset after
      the third request. */
  lemma MaxRetriesAfterReset(cfg: Config, username: string, attempts: seq<Attempt>,
                             last0: int, now0: int, t: Trace)
    requires |attempts| >= MaxRetries && FetchPromise(cfg, username, attempts, last0, now0, t)
    requires t.result == Failure(MaxRetriesExceeded)
    ensures |t.sentAt| == MaxRetries && t.steps[MaxRetries - 1].WaitForReset?
    ensures attempts[MaxRetries - 1].response.HttpError? && attempts[MaxRetries - 1].response.status == 403
  {
    assert |t.steps| == MaxRetries;
    assert SleptAfter(username, attempts, t.sentAt, t.steps, MaxRetries - 1);
  }

  /** A 403 whose reset time is under a minute away when its reply arrives
      is waited out, not rethrown. */
  lemma NearResetWaits(cfg: Config, username: string, attempts: seq<Attempt>,
                       last0: int, now0: int, t: Trace, text: string, h: nat)
    requires |attempts| >= MaxRetries && FetchPromise(cfg, username, attempts, last0, now0, t)
    requires attempts[0].response == HttpError(403, text, Some(h))
    requires var done := now0 + DelayFor(now0, last0) + attempts[0].latency;
             h != 0 && 0 < h * 1000 - done < MaxResetWaitMs
    ensures |t.sentAt| >= 2
    ensures t.steps[0].WaitForReset? && t.steps[0].ms == h * 1000 - HandledAt(attempts, t.sentAt, 0)
  {
    assert SentOnTime(attempts, last0, now0, t.sentAt, t.steps, 0);
    GoesOnAt(cfg, username, attempts, last0, now0, t, 0);
  }

  /** A 403 whose reset time is missing, zero, past, or a minute or more away
      ends the call at once with that error. */
  lemma FarResetRethrows(cfg: Config, username: string, attempts: seq<Attempt>,
                         last0: int, now0: int, t: Trace, text: string, header: Option<nat>)
    requires |attempts| >= MaxRetries && FetchPromise(cfg, username, attempts, last0, now0, t)
    requires attempts[0].response == HttpError(403, text, header)
    requires var done := now0 + DelayFor(now0, last0) + attempts[0].latency;
             !(header.Some? && header.value != 0 && 0 < header.value * 1000 - done < MaxResetWaitMs)
    ensures |t.sentAt| == 1 && t.steps == []
    ensures t.result == Failure(RateLimited(if header.Some? then Some(header.value * 1000) else None))
  {
    assert SentOnTime(attempts, last0, now0, t.sentAt, t.steps, 0);
    EndsAt(cfg, username, attempts, last0, now0, t, 0);
  }

  /** A server failure and then a reply: one backoff of 2000 ms, then the
      ranked list of the second reply. */
  lemma ServerFailureThenSuccess(cfg: Config, username: string, attempts: seq<Attempt>,
                                 last0: int, now0: int, t: Trace)
    requires |attempts| >= MaxRetries && FetchPromise(cfg, username, attempts, last0, now0, t)
    requires IsServerFailure(attempts[0].response) && attempts[1].response.Ok?
    ensures |t.sentAt| == 2 && t.steps == [Backoff(2000)]
    ensures t.result == Success(RankRepositories(cfg, attempts[1].response.repos))
    ensures t.sentAt[1] >= t.sentAt[0] + attempts[0].latency + 2000
  {
    GoesOnAt(cfg, username, attempts, last0, now0, t, 0);
    EndsAt(cfg, username, attempts, last0, now0, t, 1);
    assert SentOnTime(attempts, last0, now0, t.sentAt, t.steps, 1);
    assert t.steps == [t.steps[0]];
  }

  /** Three failures that are not client errors: backoffs of 2000 ms and
      4000 ms, then the third error. */
  lemma ServerFailuresExhaust(cfg: Config, username: string, attempts: seq<Attempt>,
                              last0: int, now0: int, t: Trace)
    requires |attempts| >= MaxRetries && FetchPromise(cfg, username, attempts, last0, now0, t)
    requires AllServerFailures(attempts)
    ensures |t.sentAt| == MaxRetries && t.steps == [Backoff(2000), Backoff(4000)]
    ensures t.result == Failure(Thrown(username, attempts[MaxRetries - 1].response))
  {
    assert IsServerFailure(attempts[0].response) && IsServerFailure(attempts[1].response);
    assert IsServerFailure(attempts[2].response);
    GoesOnAt(cfg, username, attempts, last0, now0, t, 0);
    GoesOnAt(cfg, username, attempts, last0, now0, t, 1);
    EndsAt(cfg, username, attempts, last0, now0, t, 2);
    assert t.steps == [t.steps[0], t.steps[1]];
  }

  // ---------------------------------------------------------------- projects

  /** `transformGitHubRepoToProject`. */
  function ToProject(cfg: Config, repo: Repository): (p: Project)
    ensures p.technologies == Filter([repo.primaryLanguage.name] + repo.topics, NonEmpty())
    ensures p.featured <==> repo.name in cfg.featuredRepos
    ensures p.createdAt == p.updatedAt == repo.updatedAt
  {
    Project(
      repo.name, repo.name, repo.description,
      Filter([repo.primaryLanguage.name] + repo.topics, NonEmpty()),
      repo.url, repo.homepageUrl, None,
      Some(repo.stargazerCount), Some(repo.forkCount),
      repo.primaryLanguage.name,
      repo.name in cfg.featuredRepos,
      repo.updatedAt, repo.updatedAt)
  }

  function NonEmpty(): string -> bool {
    s => s != ""
  }

  /** The language of a mapped repository always heads its technologies,
      followed by the non-empty topics. */
  lemma LanguageFirst(cfg: Config, raw: ApiRepository)
    ensures var p := ToProject(cfg, ToRepository(raw));
            p.technologies != [] && p.technologies[0] == p.language
            && p.technologies[1..] == Filter(raw.topics.GetOr([]), NonEmpty())
  {
    var repo := ToRepository(raw);
    var xs := [repo.primaryLanguage.name] + repo.topics;
    assert xs[0] == repo.primaryLanguage.name && xs[1..] == repo.topics;
  }

  const Jan2024 := Instant(1704067200000, "2024-01-01T00:00:00.000Z", "2024-01-01", "Jan 2024")
  const Jun2023 := Instant(1685577600000, "2023-06-01T00:00:00.000Z", "2023-06-01", "Jun 2023")
  const Mar2023 := Instant(1677628800000, "2023-03-01T00:00:00.000Z", "2023-03-01", "Mar 2023")

  const SamplePortfolio := Project("portfolio-website", "Portfolio Website",
    "A modern, responsive portfolio website built with Next.js and Tailwind CSS",
    ["Next.js", "TypeScript", "Tailwind CSS", "Framer Motion"],
    "https://github.com/yourusername/portfolio-website", Some("https://yourusername.github.io"), None,
    None, None, "TypeScript", true, Jan2024, Jan2024)

  const SampleProject1 := Project("sample-project-1", "Sample Project 1",
    "A sample project demonstrating modern web development practices",
    ["React", "Node.js", "MongoDB"],
    "https://github.com/yourusername/sample-project-1", None, None,
    None, None, "JavaScript", false, Jun2023, Jun2023)

  const SampleProject2 := Project("sample-project-2", "Sample Project 2",
    "Another sample project showcasing full-stack development",
    ["Vue.js", "Express", "PostgreSQL"],
    "https://github.com/yourusername/sample-project-2", None, None,
    None, None, "JavaScript", false, Mar2023, Mar2023)

  /** `getFallbackProjects`: three sample projects, only the first featured,
      none with stars, forks or an image. */
  function FallbackProjects(): (ps: seq<Project>)
    ensures |ps| == 3
    ensures forall i :: 0 <= i < |ps| ==> (ps[i].featured <==> i == 0)
    ensures forall i :: 0 <= i < |ps| ==> ps[i].stars.None? && ps[i].forks.None? && ps[i].imageUrl.None?
  {
    [SamplePortfolio, SampleProject1, SampleProject2]
  }

  /** What `getProjects` returns for a given outcome of the loop. */
  function ProjectsFor(cfg: Config, result: Result<seq<Repository>, FetchError>): (ps: seq<Project>)
    ensures result.Failure? ==> ps == FallbackProjects()
    ensures result.Success? ==> (|ps| == |result.value|
              && forall i :: 0 <= i < |ps| ==> ps[i] == ToProject(cfg, result.value[i]))
  {
    match result
    case Success(repos) => Map(repos, (repo: Repository) => ToProject(cfg, repo))
    case Failure(_) => FallbackProjects()
  }

  /** `getProjects`: the loop for the configured user; never fails. */
  method GetProjects(cfg: Config, limiter: RateLimiter, attempts: seq<Attempt>, now: int)
    returns (projects: seq<Project>, t: Trace)
    requires |attempts| >= MaxRetries
    modifies limiter
    ensures FetchPromise(cfg, cfg.username, attempts, old(limiter.lastRequest), now, t)
    ensures projects == ProjectsFor(cfg, t.result)
  {
    t := FetchRepositories(cfg, cfg.username, limiter, attempts, now);
    projects := ProjectsFor(cfg, t.result);
  }
}
