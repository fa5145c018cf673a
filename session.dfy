/**
 * A discovered CLI session and the values derived from it for display:
 * its status label, token total, duration, age and estimated cost tier.
 * Time stamps are integer milliseconds since the epoch.
 */
module Session {
  import opened Wrappers
  import opened Text

  datatype SessionStatus = Active | Idle | Thinking | Dead

  function StatusLabel(s: SessionStatus): string {
    match s
    case Active => "Active"
    case Idle => "Idle"
    case Thinking => "Thinking"
    case Dead => "Dead"
  }

  /** Every status has its own label. */
  lemma StatusLabelInjective(a: SessionStatus, b: SessionStatus)
    ensures StatusLabel(a) == StatusLabel(b) <==> a == b
  {
  }

  datatype Session = Session(
    id: string,
    pid: Option<nat>,
    cwd: string,
    projectName: string,
    gitBranch: Option<string>,
    model: Option<string>,
    status: SessionStatus,
    startedAt: int,
    lastActivity: int,
    inputTokens: nat,
    outputTokens: nat,
    cacheReadTokens: nat,
    cacheWriteTokens: nat,
    messageCount: nat,
    toolCallCount: nat,
    claudeVersion: Option<string>,
    permissionMode: Option<string>,
    planSlugs: seq<string>,
    compactionCount: nat,
    hookRunCount: nat,
    hookErrorCount: nat)

  function TotalTokens(s: Session): nat {
    s.inputTokens + s.outputTokens + s.cacheReadTokens + s.cacheWriteTokens
  }

  /** The total counts each kind of token once: it bounds every kind and is
      zero exactly when all four are. */
  lemma TotalTokensCountsEachKind(s: Session)
    ensures s.inputTokens <= TotalTokens(s) && s.outputTokens <= TotalTokens(s)
    ensures s.cacheReadTokens <= TotalTokens(s) && s.cacheWriteTokens <= TotalTokens(s)
    ensures TotalTokens(s) == 0 <==>
      s.inputTokens == 0 && s.outputTokens == 0 && s.cacheReadTokens == 0 && s.cacheWriteTokens == 0
  {
  }

  /** Whole hours and the minutes past the hour of a duration in
      milliseconds, both rounded toward zero as chrono's `num_hours` and
      `num_minutes() % 60` round them. */
  function DurationParts(ms: int): (int, int) {
    (TruncDiv(ms, 3_600_000), TruncRem(TruncDiv(ms, 60_000), 60))
  }

  /** "2h 5m" from an hour on, "42m" below it. */
  function DurationDisplay(s: Session): (r: string)
    ensures var d := s.lastActivity - s.startedAt;
      && (0 <= d < 3_600_000 ==> r == NatToString(d / 60_000) + "m")
      && (d >= 3_600_000 ==> r == NatToString(d / 3_600_000) + "h " + NatToString(d / 60_000 % 60) + "m")
  {
    var (hours, minutes) := DurationParts(s.lastActivity - s.startedAt);
    if hours > 0 then IntToString(hours) + "h " + IntToString(minutes) + "m"
    else IntToString(minutes) + "m"
  }

  /** For a session that ran forward in time, hours and minutes together give
      its whole minutes, and the minutes shown are below 60; a negative
      duration shows no hours and a minute count in (-60, 0]. */
  lemma DurationPartsReadBack(ms: int)
    ensures var (h, m) := DurationParts(ms);
      (ms >= 0 ==> 0 <= m < 60 && h * 60 + m == ms / 60_000)
      && (ms < 0 ==> h <= 0 && -60 < m <= 0)
  {
    var (h, m) := DurationParts(ms);
    if ms >= 0 {
      var mins := ms / 60_000;
      assert ms / 3_600_000 == mins / 60;
    } else {
      var mins := (-ms) / 60_000;
      assert (-ms) / 3_600_000 == mins / 60;
    }
  }

  /** Seconds since the last activity, as chrono's `num_seconds` rounds them. */
  function LastActivityDisplay(s: Session, now: int): (r: string)
    ensures now >= s.lastActivity ==>
      var secs := (now - s.lastActivity) / 1000;
      var (n, u) := AgeParts(secs);
      && n >= 0 && r == NatToString(n) + u + " ago"
      && n * UnitSeconds(u) <= secs < (n + 1) * UnitSeconds(u)
    ensures now < s.lastActivity ==> r == IntToString(-((s.lastActivity - now) / 1000)) + "s ago"
  {
    var secs := TruncDiv(now - s.lastActivity, 1000);
    if secs >= 0 then
      AgePartsFloor(secs);
      AgeText(secs)
    else
      AgeText(secs)
  }

  datatype PricingTier = OpusTier | HaikuTier | DefaultTier

  /** "opus" is looked for before "haiku"; every other model is priced as the default tier. */
  function Tier(model: string): (t: PricingTier)
    ensures t == OpusTier <==> Contains(model, "opus")
    ensures t == HaikuTier <==> !Contains(model, "opus") && Contains(model, "haiku")
  {
    if Contains(model, "opus") then OpusTier
    else if Contains(model, "haiku") then HaikuTier
    else DefaultTier
  }

  /** Input and output price per million tokens, in US cents. */
  function TierPrices(t: PricingTier): (nat, nat) {
    match t
    case OpusTier => (1500, 7500)
    case HaikuTier => (80, 400)
    case DefaultTier => (300, 1500)
  }

  /** The estimated cost in units of 5e-10 USD (one two-billionth of a dollar),
      which keeps the cache-read (1/10) and cache-write (1/4) discounts exact. */
  function CostUnits(s: Session): (r: nat)
    ensures r == 0 <==> TotalTokens(s) == 0
    ensures r <= 150_000 * TotalTokens(s)
  {
    var prices := TierPrices(Tier(s.model.UnwrapOr("")));
    var i, o, cr, cw := s.inputTokens, s.outputTokens, s.cacheReadTokens, s.cacheWriteTokens;
    assert 1 <= prices.0 <= 1500 && 1 <= prices.1 <= 7500;
    assert i * prices.0 <= i * 7500 && o * prices.1 <= o * 7500;
    assert cr * prices.0 <= cr * 1500 && cw * prices.0 <= cw * 1500;
    assert TotalTokens(s) > 0 ==> i * prices.0 > 0 || o * prices.1 > 0 || cr * prices.0 > 0 || cw * prices.0 > 0;
    20 * (s.inputTokens * prices.0 + s.outputTokens * prices.1)
      + 2 * s.cacheReadTokens * prices.0 + 5 * s.cacheWriteTokens * prices.0
  }

  /** For the same non-zero usage an opus model costs more than a default-tier
      model, and a haiku model costs less. */
  lemma TierCostOrder(opus: Session, other: Session, haiku: Session)
    requires Tier(opus.model.UnwrapOr("")) == OpusTier
    requires Tier(other.model.UnwrapOr("")) == DefaultTier
    requires Tier(haiku.model.UnwrapOr("")) == HaikuTier
    requires opus.inputTokens == other.inputTokens == haiku.inputTokens
    requires opus.outputTokens == other.outputTokens == haiku.outputTokens
    requires opus.cacheReadTokens == other.cacheReadTokens == haiku.cacheReadTokens
    requires opus.cacheWriteTokens == other.cacheWriteTokens == haiku.cacheWriteTokens
    requires TotalTokens(other) > 0
    ensures CostUnits(haiku) < CostUnits(other) < CostUnits(opus)
  {
    var i, o, r, w := other.inputTokens, other.outputTokens, other.cacheReadTokens, other.cacheWriteTokens;
    assert CostUnits(other) == 20 * (i * 300 + o * 1500) + 2 * r * 300 + 5 * w * 300;
    assert CostUnits(opus) == 5 * CostUnits(other);
    assert CostUnits(haiku) * 15 == CostUnits(other) * 4;
  }

  /** At the default tier one million input and a hundred thousand output
      tokens cost 4.50 USD. */
  lemma DefaultCostExample(s: Session)
    requires Tier(s.model.UnwrapOr("")) == DefaultTier
    requires s.inputTokens == 1_000_000 && s.outputTokens == 100_000
    requires s.cacheReadTokens == 0 && s.cacheWriteTokens == 0
    ensures CostUnits(s) == 9_000_000_000
  {
    assert CostUnits(s) == 20 * (1_000_000 * 300 + 100_000 * 1500);
  }

  /** A sonnet model name contains neither "opus" nor "haiku", so it is
      priced at the default tier. */
  lemma SonnetIsDefaultTier(m: string)
    requires m == "claude-sonnet-4-20250514"
    ensures Tier(m) == DefaultTier
  {
    assert forall i | 0 <= i < |m| :: m[i] != 'p' && m[i] != 'h';
    MissingCharNotContained(m, "opus", 1);
    MissingCharNotContained(m, "haiku", 0);
  }
}
