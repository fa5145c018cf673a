/**
 * The subscription usage shown in the usage panel: the plan name derived
 * from the subscription type stored with the OAuth credentials, the check
 * that rejects an expired token, the shaping of the usage API's answer, and
 * the fetcher that caches the result for 60 seconds.
 *
 * The credentials file, the clocks and the usage API are inputs: the parsed
 * credentials (None when the file is missing or does not parse), the wall
 * clock in milliseconds since the epoch, a monotonic clock in milliseconds,
 * and the API's answer for a token.
 */
module Usage {
  import opened Wrappers
  import opened Text

  const CacheTtlSecs: nat := 60

  /** A utilisation percentage, as `parse_utilization` leaves it. */
  type Percent = p: int | 0 <= p <= 100

  datatype UsageData = UsageData(
    planName: Option<string>,
    fiveHour: Option<Percent>,
    fiveHourReset: Option<string>,
    sevenDay: Option<Percent>,
    sevenDayReset: Option<string>,
    apiAvailable: bool)

  function DefaultUsage(): UsageData {
    UsageData(None, None, None, None, None, false)
  }

  // ---------------------------------------------------------------------------
  // Plan names
  // ---------------------------------------------------------------------------

  /** The plan shown for a subscription type. The known plans are matched
      case-insensitively, "max" before "pro" before "team"; an empty type or
      an API-key type has no plan; any other type is shown with its first
      character upper-cased. */
  function PlanFromSubscription(sub: string): (r: Option<string>)
    ensures var lower := Lower(sub);
      !Contains(lower, "max") && !Contains(lower, "pro") && !Contains(lower, "team") ==>
        (r.None? <==> sub == "" || Contains(lower, "api"))
    ensures r.Some? ==> |r.value| > 0
  {
    var lower := Lower(sub);
    if Contains(lower, "max") then Some("Max")
    else if Contains(lower, "pro") then Some("Pro")
    else if Contains(lower, "team") then Some("Team")
    else if sub == "" || Contains(lower, "api") then None
    else Some([UpperChar(sub[0])] + sub[1..])
  }

  lemma LowerUpper(c: char)
    ensures LowerChar(UpperChar(c)) == LowerChar(c)
    ensures UpperChar(UpperChar(c)) == UpperChar(c)
  {
  }

  /** Upper-casing the first character leaves the name the same up to case. */
  lemma CapitalisedLower(s: string)
    requires |s| > 0
    ensures Lower([UpperChar(s[0])] + s[1..]) == Lower(s)
  {
    var t := [UpperChar(s[0])] + s[1..];
    LowerUpper(s[0]);
    assert forall i :: 0 <= i < |s| ==> Lower(t)[i] == Lower(s)[i];
  }

  lemma LowerLiterals()
    ensures Lower("Max") == "max" && Lower("Pro") == "pro" && Lower("Team") == "team"
  {
    assert Lower("Max")[0] == 'm';
    assert Lower("Pro")[0] == 'p';
    assert Lower("Team")[0] == 't';
  }

  lemma ContainsItself(s: string)
    ensures Contains(s, s)
  {
    assert s[..|s|] == s;
  }

  /** The order of the checks: "Max" exactly when the type mentions "max",
      "Pro" exactly when it mentions "pro" but not "max", "Team" exactly when
      it mentions "team" and neither of the others. A type the fallback
      capitalises keeps its letters, so it never turns into a known plan. */
  lemma PlanOrder(sub: string)
    ensures var lower := Lower(sub);
      && (PlanFromSubscription(sub) == Some("Max") <==> Contains(lower, "max"))
      && (PlanFromSubscription(sub) == Some("Pro") <==> !Contains(lower, "max") && Contains(lower, "pro"))
      && (PlanFromSubscription(sub) == Some("Team") <==>
            !Contains(lower, "max") && !Contains(lower, "pro") && Contains(lower, "team"))
  {
    var lower := Lower(sub);
    var r := PlanFromSubscription(sub);
    if !Contains(lower, "max") && !Contains(lower, "pro") && !Contains(lower, "team") && r.Some? {
      CapitalisedLower(sub);
      assert Lower(r.value) == lower;
      LowerLiterals();
      ContainsItself("max");
      ContainsItself("pro");
      ContainsItself("team");
      assert r.value != "Max" && r.value != "Pro" && r.value != "Team";
    }
  }

  /** A type no known plan matches is shown as itself with its first
      character upper-cased and nothing else changed. */
  lemma PlanFallback(sub: string)
    requires var lower := Lower(sub);
      !Contains(lower, "max") && !Contains(lower, "pro") && !Contains(lower, "team") && !Contains(lower, "api")
    requires sub != ""
    ensures var r := PlanFromSubscription(sub);
      r.Some? && |r.value| == |sub| && r.value[0] == UpperChar(sub[0]) && r.value[1..] == sub[1..]
      && Lower(r.value) == Lower(sub)
  {
    CapitalisedLower(sub);
  }

  /** Naming is stable: the name of a plan names that same plan. */
  lemma PlanIdempotent(sub: string)
    requires PlanFromSubscription(sub).Some?
    ensures PlanFromSubscription(PlanFromSubscription(sub).value) == PlanFromSubscription(sub)
  {
    var lower := Lower(sub);
    var name := PlanFromSubscription(sub).value;
    LowerLiterals();
    if Contains(lower, "max") {
      ContainsItself("max");
    } else if Contains(lower, "pro") {
      ContainsItself("pro");
      MissingCharNotContained("pro", "max", 0);
    } else if Contains(lower, "team") {
      ContainsItself("team");
      MissingCharNotContained("team", "max", 2);
      MissingCharNotContained("team", "pro", 0);
    } else {
      CapitalisedLower(sub);
      assert Lower(name) == lower;
      LowerUpper(sub[0]);
      assert name[0] == UpperChar(sub[0]);
      assert [UpperChar(name[0])] + name[1..] == name;
    }
  }

  /** The subscription types of the unit tests. */
  lemma PlanExampleMax()
    ensures PlanFromSubscription("max_5x") == Some("Max")
  {
    assert Lower("max_5x")[..3] == "max";
  }

  lemma PlanExamplePro()
    ensures PlanFromSubscription("pro") == Some("Pro")
  {
    assert Lower("pro") == "pro";
    MissingCharNotContained("pro", "max", 0);
    ContainsItself("pro");
  }

  lemma TeamKeywords(sub: string)
    requires sub == "team_enterprise"
    ensures !Contains(sub, "max") && !Contains(sub, "pro") && Contains(sub, "team")
  {
    MissingCharNotContained(sub, "max", 2);
    MissingCharNotContained(sub, "pro", 2);
    assert sub[..4] == "team";
  }

  lemma PlanExampleTeam(sub: string)
    requires sub == "team_enterprise"
    ensures PlanFromSubscription(sub) == Some("Team")
  {
    TeamKeywords(sub);
    LowerOfLowercase(sub);
  }

  lemma PlanExampleEmpty()
    ensures PlanFromSubscription("") == None
  {
    MissingCharNotContained("", "max", 0);
    MissingCharNotContained("", "pro", 0);
    MissingCharNotContained("", "team", 0);
  }

  lemma ApiKeyKeywords(sub: string)
    requires sub == "api_key"
    ensures !Contains(sub, "max") && !Contains(sub, "pro") && !Contains(sub, "team") && Contains(sub, "api")
  {
    MissingCharNotContained(sub, "max", 0);
    MissingCharNotContained(sub, "pro", 1);
    MissingCharNotContained(sub, "team", 0);
    assert sub[..3] == "api";
  }

  lemma PlanExampleApiKey(sub: string)
    requires sub == "api_key"
    ensures PlanFromSubscription(sub) == None
  {
    ApiKeyKeywords(sub);
    LowerOfLowercase(sub);
  }

  // ---------------------------------------------------------------------------
  // Credentials
  // ---------------------------------------------------------------------------

  datatype OAuthData = OAuthData(accessToken: Option<string>, subscriptionType: Option<string>, expiresAt: Option<nat>)

  /** The credentials file, parsed. */
  datatype Credentials = Credentials(claudeAiOauth: Option<OAuthData>)

  /** The token and subscription type of `file` at wall-clock time `nowMs`. */
  function ReadCredentials(file: Option<Credentials>, nowMs: nat): (r: Option<(string, string)>)
    ensures r.Some? <==>
      && file.Some? && file.value.claudeAiOauth.Some?
      && file.value.claudeAiOauth.value.accessToken.Some?
      && (file.value.claudeAiOauth.value.expiresAt.None? || nowMs < file.value.claudeAiOauth.value.expiresAt.value)
    ensures r.Some? ==>
      r.value.0 == file.value.claudeAiOauth.value.accessToken.value
      && r.value.1 == file.value.claudeAiOauth.value.subscriptionType.UnwrapOr("")
  {
    if file.None? || file.value.claudeAiOauth.None? then None
    else
      var oauth := file.value.claudeAiOauth.value;
      if oauth.accessToken.None? then None
      else if oauth.expiresAt.Some? && oauth.expiresAt.value <= nowMs then None
      else Some((oauth.accessToken.value, oauth.subscriptionType.UnwrapOr("")))
  }

  /** A token stays usable up to the millisecond before it expires: the
      answer changes only once the clock reaches the expiry time. */
  lemma ExpiryMonotone(file: Option<Credentials>, earlier: nat, later: nat)
    requires earlier <= later
    ensures ReadCredentials(file, later).Some? ==> ReadCredentials(file, earlier) == ReadCredentials(file, later)
  {
  }

  // ---------------------------------------------------------------------------
  // The usage API's answer
  // ---------------------------------------------------------------------------

  /** A 64-bit float as the answer's JSON can carry it. */
  datatype F64 = Finite(value: real) | Infinite(positive: bool) | NaN

  /** `parse_utilization`: a finite value clamped to 0..100 and truncated to
      a whole percentage; NaN, an infinity or no value gives none. */
  function ParseUtilization(v: Option<F64>): (r: Option<Percent>)
    ensures r.Some? <==> v.Some? && v.value.Finite?
    ensures r.Some? && v.value.value <= 0.0 ==> r.value == 0
    ensures r.Some? && v.value.value >= 100.0 ==> r.value == 100
    ensures r.Some? && 0.0 <= v.value.value <= 100.0 ==>
      r.value as real <= v.value.value < r.value as real + 1.0
  {
    match v
    case Some(Finite(x)) =>
      var clamped := if x < 0.0 then 0.0 else if x > 100.0 then 100.0 else x;
      Some(clamped.Floor)
    case _ => None
  }

  /** The cases of the unit test. */
  lemma ParseUtilizationExamples()
    ensures ParseUtilization(Some(Finite(50.0))) == Some(50)
    ensures ParseUtilization(Some(Finite(0.0))) == Some(0)
    ensures ParseUtilization(Some(Finite(100.0))) == Some(100)
    ensures ParseUtilization(Some(Finite(150.0))) == Some(100)
    ensures ParseUtilization(Some(NaN)) == None
    ensures ParseUtilization(None) == None
  {
  }

  /** One rate-limit window of the answer, as the JSON gives it. */
  datatype Window = Window(utilization: Option<F64>, resetsAt: Option<string>)

  datatype ApiResponse = ApiResponse(fiveHour: Option<Window>, sevenDay: Option<Window>)

  function Utilization(w: Option<Window>): Option<Percent> {
    ParseUtilization(if w.Some? then w.value.utilization else None)
  }

  /** The reset time rendered by `formatReset`, which stands for
      `format_reset_time` (an RFC 3339 parse and the local time zone). */
  function ResetsAt(w: Option<Window>, formatReset: string -> Option<string>): Option<string> {
    if w.Some? && w.value.resetsAt.Some? then formatReset(w.value.resetsAt.value) else None
  }

  /** `fetch_usage`: no usable credentials or no plan give the default data;
      otherwise the plan is kept, and the API's answer for the token, when it
      comes, fills in the windows. */
  function FetchUsage(creds: Option<(string, string)>, callApi: string -> Option<ApiResponse>,
                      formatReset: string -> Option<string>): (r: UsageData)
    ensures r.planName == (if creds.Some? then PlanFromSubscription(creds.value.1) else None)
    ensures r.planName.None? ==> r == DefaultUsage()
    ensures r.apiAvailable <==> r.planName.Some? && callApi(creds.value.0).Some?
    ensures r.planName.Some? && !r.apiAvailable ==> r == DefaultUsage().(planName := r.planName)
  {
    match creds
    case None => DefaultUsage()
    case Some((token, subType)) =>
      var plan := PlanFromSubscription(subType);
      if plan.None? then DefaultUsage()
      else match callApi(token)
        case Some(resp) =>
          UsageData(plan, Utilization(resp.fiveHour), ResetsAt(resp.fiveHour, formatReset),
                    Utilization(resp.sevenDay), ResetsAt(resp.sevenDay, formatReset), true)
        case None => UsageData(plan, None, None, None, None, false)
  }

  /** The API's answer is used only for an unexpired token of a known plan,
      and then its windows are shown as they came. */
  lemma FetchUsageWindows(file: Option<Credentials>, nowMs: nat, callApi: string -> Option<ApiResponse>,
                          formatReset: string -> Option<string>)
    ensures var r := FetchUsage(ReadCredentials(file, nowMs), callApi, formatReset);
      r.apiAvailable ==>
        && file.Some? && file.value.claudeAiOauth.Some?
        && var oauth := file.value.claudeAiOauth.value;
        && oauth.accessToken.Some?
        && (oauth.expiresAt.None? || nowMs < oauth.expiresAt.value)
        && PlanFromSubscription(oauth.subscriptionType.UnwrapOr("")).Some?
        && var resp := callApi(oauth.accessToken.value).value;
        && r.fiveHour == Utilization(resp.fiveHour) && r.fiveHourReset == ResetsAt(resp.fiveHour, formatReset)
        && r.sevenDay == Utilization(resp.sevenDay) && r.sevenDayReset == ResetsAt(resp.sevenDay, formatReset)
  {
  }

  // ---------------------------------------------------------------------------
  // The cache
  // ---------------------------------------------------------------------------

  /** Whole seconds from `t` to `now` on the monotonic clock, none when the
      clock reads earlier. */
  function ElapsedSecs(t: nat, now: nat): nat {
    if now <= t then 0 else (now - t) / 1000
  }

  /** Whether `get` at `now` fetches, given when it last fetched. */
  predicate ShouldFetch(lastFetch: Option<nat>, now: nat) {
    match lastFetch
    case None => true
    case Some(t) => ElapsedSecs(t, now) >= CacheTtlSecs
  }

  /** The cache is stale exactly from 60 000 ms after the last fetch on. */
  lemma ShouldFetchAfterTtl(t: nat, now: nat)
    ensures ShouldFetch(Some(t), now) <==> now >= t + CacheTtlSecs * 1000
  {
    if now > t && (now - t) / 1000 >= 60 {
      assert now - t >= 60000;
    }
  }

  class UsageFetcher {
    var cached: UsageData
    /** The monotonic time of the last fetch, in milliseconds. */
    var lastFetch: Option<nat>

    constructor ()
      ensures cached == DefaultUsage() && lastFetch == None
    {
      cached := DefaultUsage();
      lastFetch := None;
    }

    /** `get` at monotonic time `now`: when the cache is stale or empty it
        fetches afresh with the credentials and the wall clock given and
        stamps the cache with `fetchedAt`, the monotonic time when the
        fetch returned; otherwise it returns the cached data untouched. */
    method Get(now: nat, fetchedAt: nat, file: Option<Credentials>, wallMs: nat,
               callApi: string -> Option<ApiResponse>, formatReset: string -> Option<string>)
      returns (data: UsageData)
      requires now <= fetchedAt
      modifies this
      ensures ShouldFetch(old(lastFetch), now) ==>
        cached == FetchUsage(ReadCredentials(file, wallMs), callApi, formatReset) && lastFetch == Some(fetchedAt)
      ensures !ShouldFetch(old(lastFetch), now) ==> cached == old(cached) && lastFetch == old(lastFetch)
      ensures data == cached
    {
      var shouldFetch := match lastFetch
        case Some(t) => ElapsedSecs(t, now) >= CacheTtlSecs
        case None => true;
      if shouldFetch {
        cached := FetchUsage(ReadCredentials(file, wallMs), callApi, formatReset);
        lastFetch := Some(fetchedAt);
      }
      data := cached;
    }
  }

  /** Two calls of `get`, the first starting at `t` and, when it fetches,
      returning at `t1`; the second starting at `later` and returning at
      `later1`. When the first fetches, the second is served from the cache
      when it starts less than a minute after the first fetch returned, and
      fetches again otherwise: the minute counts from the end of a fetch, not
      from its start. */
  method GetTwice(fetcher: UsageFetcher, t: nat, t1: nat, later: nat, later1: nat, file: Option<Credentials>,
                  wallMs: nat, callApi: string -> Option<ApiResponse>, formatReset: string -> Option<string>)
    returns (first: UsageData, second: UsageData)
    requires t <= t1 <= later <= later1
    modifies fetcher
    ensures ShouldFetch(old(fetcher.lastFetch), t) ==>
      && first == FetchUsage(ReadCredentials(file, wallMs), callApi, formatReset)
      && (later < t1 + CacheTtlSecs * 1000 ==> second == first && fetcher.lastFetch == Some(t1))
      && (later >= t1 + CacheTtlSecs * 1000 ==> fetcher.lastFetch == Some(later1))
  {
    first := fetcher.Get(t, t1, file, wallMs, callApi, formatReset);
    ShouldFetchAfterTtl(t1, later);
    second := fetcher.Get(later, later1, file, wallMs, callApi, formatReset);
  }

  /** A fetch that starts at 0 s and returns at 3 s leaves the cache fresh
      at 61 s, and stale from 63 s on. */
  lemma SlowFetchStaysFresh()
    ensures !ShouldFetch(Some(3000), 61000)
    ensures ShouldFetch(Some(3000), 63000)
    ensures ShouldFetch(Some(0), 61000)
  {
  }
}
