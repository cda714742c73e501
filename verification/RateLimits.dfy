/**
 Waiting after a provider's rate limit, and taking workers away from a scan that keeps hitting it
 (engine/open_kritt_engine/db.py, `rate_limit_retry_delay` and `defer_scan_after_rate_limit`).
 */
module RateLimits {
  import opened Wrappers
  import Ledger = JobLedger

  const BASE := 60.0
  const RATE_LIMIT_MAXIMUM := 600.0
  const QUOTA_MAXIMUM := 1800.0

  function Max(a: real, b: real): real {
    if a < b then b else a
  }

  function Min(a: real, b: real): real {
    if b < a then b else a
  }

  /** The base delay, doubled so many times. */
  function Doubled(times: nat): real {
    if times == 0 then BASE else 2.0 * Doubled(times - 1)
  }

  function Exponent(retryCount: int): nat {
    if retryCount > 1 then retryCount - 1 else 0
  }

  /** `rate_limit_retry_delay`: from eight doublings on, the maximum stands in for the power. */
  function RetryDelay(retryCount: int, hint: real, maximum: real): real {
    var m := Max(BASE, maximum);
    var e := Exponent(retryCount);
    var exponential := if e >= 8 then m else Min(Doubled(e), m);
    Min(Max(exponential, Max(0.0, hint)), m)
  }

  lemma {:induction false} DoubledGrows(a: nat, b: nat)
    requires a <= b
    ensures BASE <= Doubled(a) <= Doubled(b)
    decreases b
  {
    if a < b {
      DoubledGrows(a, b - 1);
    } else if b > 0 {
      DoubledGrows(a - 1, b - 1);
    }
  }

  /** Every delay is at least the base and at most the maximum. */
  lemma DelayInRange(retryCount: int, hint: real, maximum: real)
    ensures BASE <= RetryDelay(retryCount, hint, maximum) <= Max(BASE, maximum)
  {
    DoubledGrows(0, Exponent(retryCount));
  }

  /** More retries, a longer hint or a larger maximum never shorten the delay. */
  lemma DelayMonotone(r: int, s: int, hint: real, longer: real, maximum: real, larger: real)
    requires r <= s && hint <= longer && maximum <= larger
    ensures RetryDelay(r, hint, maximum) <= RetryDelay(s, longer, larger)
  {
    DoubledGrows(Exponent(r), Exponent(s));
  }

  /** The formula without the cut-off at eight doublings. */
  function Uncut(retryCount: int, hint: real, maximum: real): real {
    var m := Max(BASE, maximum);
    Min(Max(Doubled(Exponent(retryCount)), Max(0.0, hint)), m)
  }

  /** The cut-off shows exactly when eight doublings do not reach the maximum and the hint does not either. */
  lemma CutOffIff(retryCount: int, hint: real, maximum: real)
    ensures RetryDelay(retryCount, hint, maximum) == Uncut(retryCount, hint, maximum) <==>
      Exponent(retryCount) < 8 || Max(BASE, maximum) <= Doubled(Exponent(retryCount)) || hint >= Max(BASE, maximum)
  {
    DoubledGrows(0, Exponent(retryCount));
  }

  /** At the two maxima the engine uses, the delay is the doubling formula, clipped. */
  lemma DelayIsDoubling(retryCount: int, hint: real, maximum: real)
    requires maximum == RATE_LIMIT_MAXIMUM || maximum == QUOTA_MAXIMUM
    ensures RetryDelay(retryCount, hint, maximum) == Uncut(retryCount, hint, maximum)
  {
    CutOffIff(retryCount, hint, maximum);
    if Exponent(retryCount) >= 8 {
      DoubledGrows(5, Exponent(retryCount));
      assert Doubled(1) == 120.0;
      assert Doubled(3) == 480.0;
      assert Doubled(5) == 1920.0;
    }
  }

  /**
   Without a hint the first delay is a minute, and every further retry doubles it up to the maximum;
   a hint can only lengthen it, up to the maximum.
   */
  lemma DelayDoubles(retryCount: int, hint: real, maximum: real)
    requires maximum == RATE_LIMIT_MAXIMUM || maximum == QUOTA_MAXIMUM
    ensures retryCount <= 1 ==> RetryDelay(retryCount, 0.0, maximum) == 60.0
    ensures retryCount >= 1 ==>
      RetryDelay(retryCount + 1, 0.0, maximum) == Min(2.0 * RetryDelay(retryCount, 0.0, maximum), maximum)
    ensures RetryDelay(retryCount, hint, maximum) == Min(Max(RetryDelay(retryCount, 0.0, maximum), hint), maximum)
  {
    DelayIsDoubling(retryCount, 0.0, maximum);
    DelayIsDoubling(retryCount, hint, maximum);
    DelayIsDoubling(retryCount + 1, 0.0, maximum);
    DoubledGrows(0, Exponent(retryCount));
    assert retryCount >= 1 ==> Exponent(retryCount + 1) == Exponent(retryCount) + 1;
  }

  // ---- Deferring a scan ----

  datatype LimitKind = Throttled | AccountQuota | Subagent | Plain

  /** A field of the stored reasoning: missing, an integer, or anything else (a Boolean is no integer). */
  datatype Field = Absent | Whole(n: int) | Malformed

  /** The fields of the reasoning that deferring reads; no reasoning is four absent fields. */
  datatype Reasoning = Reasoning(retries: Field, cap: Field, initialCap: Field, events: Field)

  datatype Deferral = Deferral(hint: real, kind: LimitKind, autoscale: bool, currentCap: Option<int>)

  predicate Deferrable(s: Ledger.Status) {
    s.Running? || s.Prewarming? || s.PostProcessing? || s.Failed?
  }

  function OrElse(f: Field, least: int, default: int): int {
    if f.Whole? && f.n >= least then f.n else default
  }

  function MaximumFor(kind: LimitKind): real {
    if kind.AccountQuota? || kind.Subagent? then QUOTA_MAXIMUM else RATE_LIMIT_MAXIMUM
  }

  /** The worker cap a deferral starts from, if it takes a worker away at all. */
  function CapBefore(r: Reasoning, d: Deferral): Option<int> {
    if !d.autoscale || !(d.kind.Throttled? || d.kind.Subagent?) then None
    else if r.cap.Whole? && r.cap.n >= 1 then Some(r.cap.n)
    else if d.currentCap.Some? && d.currentCap.value > 0 then d.currentCap
    else None
  }

  function Deferred(r: Reasoning, d: Deferral): Reasoning {
    var counted := r.(retries := Whole(OrElse(r.retries, 0, 0) + 1));
    var stored := CapBefore(r, d);
    if stored.None? then counted
    else
      var next := if stored.value > 1 then stored.value - 1 else 1;
      counted.(cap := Whole(next), initialCap := Whole(OrElse(r.initialCap, 1, stored.value)),
               events := Whole(OrElse(r.events, 0, 0) + if next < stored.value then 1 else 0))
  }

  function DelayOf(r: Reasoning, d: Deferral): real {
    RetryDelay(OrElse(r.retries, 0, 0) + 1, d.hint, MaximumFor(d.kind))
  }

  // ---- What a deferral does to the reasoning ----

  /** A count that is missing or no count is zero. */
  predicate Counts(f: Field, n: int) {
    if f.Whole? && f.n >= 0 then n == f.n else n == 0
  }

  /** The worker cap a deferral lowers: the stored one, or the current one where none is stored. */
  predicate Lowers(r: Reasoning, d: Deferral, cap: int) {
    && d.autoscale && d.kind in {Throttled, Subagent} && cap >= 1
    && if r.cap.Whole? && r.cap.n >= 1 then cap == r.cap.n else d.currentCap == Some(cap)
  }

  /**
   Every deferral counts one retry. One that lowers a cap above one takes one worker away and counts
   one event; the first cap it lowers is kept as the initial one. Nothing else changes.
   */
  lemma DeferredIs(r: Reasoning, d: Deferral, retries: int, events: int)
    requires Counts(r.retries, retries) && Counts(r.events, events)
    ensures Deferred(r, d).retries == Whole(retries + 1)
    ensures (forall cap :: !Lowers(r, d, cap)) ==> Deferred(r, d) == r.(retries := Whole(retries + 1))
    ensures forall cap | Lowers(r, d, cap) ::
      && Deferred(r, d).cap == Whole(if cap > 1 then cap - 1 else 1)
      && Deferred(r, d).events == Whole(if cap > 1 then events + 1 else events)
      && Deferred(r, d).initialCap == if r.initialCap.Whole? && r.initialCap.n >= 1 then r.initialCap else Whole(cap)
  {
    if CapBefore(r, d).Some? {
      assert Lowers(r, d, CapBefore(r, d).value);
    }
  }

  /** The delay is that of the counted retry; an account quota or a subagent limit may wait up to the longer maximum. */
  lemma DelayOfIs(r: Reasoning, d: Deferral, retries: int)
    requires Counts(r.retries, retries)
    ensures DelayOf(r, d) ==
      RetryDelay(retries + 1, d.hint, if d.kind in {AccountQuota, Subagent} then QUOTA_MAXIMUM else RATE_LIMIT_MAXIMUM)
  {
  }

  /** The reasoning a deferral writes. */
  method NextReasoning(r: Reasoning, previous: int, d: Deferral) returns (next: Reasoning)
    requires previous == OrElse(r.retries, 0, 0)
    ensures next == Deferred(r, d)
  {
    next := r.(retries := Whole(previous + 1));
    if d.autoscale && (d.kind.Throttled? || d.kind.Subagent?) {
      var stored := if next.cap.Whole? && next.cap.n >= 1 then Some(next.cap.n) else d.currentCap;
      if stored.Some? && stored.value > 0 {
        var nextCap := if stored.value - 1 > 1 then stored.value - 1 else 1;
        var events := if next.events.Whole? && next.events.n >= 0 then next.events.n else 0;
        var initial := if next.initialCap.Whole? && next.initialCap.n >= 1 then next.initialCap.n else stored.value;
        next := next.(cap := Whole(nextCap), initialCap := Whole(initial),
                      events := Whole(events + if nextCap < stored.value then 1 else 0));
      }
    }
  }

  /** The scan row that deferring updates. */
  class ScanRow {
    var status: Ledger.Status
    var reasoning: Reasoning
    var retryAfter: real
    var resume: Ledger.Status

    constructor (status: Ledger.Status, reasoning: Reasoning)
      ensures this.status == status && this.reasoning == reasoning
    {
      this.status, this.reasoning, this.retryAfter, this.resume := status, reasoning, 0.0, Ledger.Running;
    }

    /** `defer_scan_after_rate_limit`; the delay is counted from now. */
    method Defer(d: Deferral) returns (deferred: bool)
      modifies this
      ensures deferred <==> old(status) in {Ledger.Running, Ledger.Prewarming, Ledger.PostProcessing, Ledger.Failed}
      ensures deferred ==> resume == if old(status).PostProcessing? then Ledger.PostProcessing else Ledger.Running
      ensures deferred ==>
        status.RateLimited? && reasoning == Deferred(old(reasoning), d) && retryAfter == DelayOf(old(reasoning), d)
      ensures !deferred ==> status == old(status) && reasoning == old(reasoning) && retryAfter == old(retryAfter)
      ensures !deferred ==> resume == old(resume)
    {
      if !Deferrable(status) {
        return false;
      }
      var previous := if reasoning.retries.Whole? then reasoning.retries.n else 0;
      if previous < 0 {
        previous := 0;
      }
      var maximum := if d.kind.AccountQuota? || d.kind.Subagent? then QUOTA_MAXIMUM else RATE_LIMIT_MAXIMUM;
      retryAfter := RetryDelay(previous + 1, d.hint, maximum);
      var next := NextReasoning(reasoning, previous, d);
      reasoning := next;
      resume := if status.PostProcessing? then Ledger.PostProcessing else Ledger.Running;
      status := Ledger.RateLimited;
      deferred := true;
    }
  }

  // ---- Runs of deferrals ----

  /** The cap fields add up: workers taken away is initial cap less current cap; no cap, nothing counted. */
  ghost predicate CapsAddUp(r: Reasoning) {
    if r.cap.Whole? && r.cap.n >= 1 then
      OrElse(r.initialCap, 1, r.cap.n) - r.cap.n == OrElse(r.events, 0, 0)
    else OrElse(r.initialCap, 1, 0) == 0 && OrElse(r.events, 0, 0) == 0
  }

  /** A scan deferred over and over, with nothing else writing its reasoning. */
  ghost predicate DeferralRun(rs: seq<Reasoning>, ds: seq<Deferral>) {
    |rs| == |ds| + 1 && forall i | 0 <= i < |ds| :: rs[i + 1] == Deferred(rs[i], ds[i])
  }

  predicate HasCap(r: Reasoning) {
    r.cap.Whole? && r.cap.n >= 1
  }

  lemma DeferralStep(r: Reasoning, d: Deferral)
    requires CapsAddUp(r)
    ensures CapsAddUp(Deferred(r, d))
    ensures HasCap(r) ==> HasCap(Deferred(r, d)) && Deferred(r, d).cap.n <= r.cap.n
    ensures HasCap(r) ==> OrElse(Deferred(r, d).initialCap, 1, Deferred(r, d).cap.n) == OrElse(r.initialCap, 1, r.cap.n)
    ensures OrElse(Deferred(r, d).retries, 0, 0) == OrElse(r.retries, 0, 0) + 1
  {
  }

  /**
   Along any run of deferrals the cap stays at least one and never rises, the initial cap stays, and
   initial cap less current cap is the number of autoscale events; every deferral is counted once.
   */
  lemma {:induction false} DeferralsAddUp(rs: seq<Reasoning>, ds: seq<Deferral>, i: nat, j: nat)
    requires DeferralRun(rs, ds) && CapsAddUp(rs[0]) && i <= j < |rs|
    ensures CapsAddUp(rs[i]) && CapsAddUp(rs[j])
    ensures HasCap(rs[i]) ==> HasCap(rs[j]) && 1 <= rs[j].cap.n <= rs[i].cap.n
    ensures HasCap(rs[i]) ==> OrElse(rs[j].initialCap, 1, rs[j].cap.n) == OrElse(rs[i].initialCap, 1, rs[i].cap.n)
    ensures OrElse(rs[j].retries, 0, 0) == OrElse(rs[i].retries, 0, 0) + (j - i)
    decreases j
  {
    if i < j {
      DeferralsAddUp(rs, ds, i, j - 1);
      DeferralStep(rs[j - 1], ds[j - 1]);
    } else if j > 0 {
      DeferralsAddUp(rs, ds, j - 1, j - 1);
      DeferralStep(rs[j - 1], ds[j - 1]);
    }
  }

  /** Along any run, a later deferral of the same kind with no shorter hint waits no shorter. */
  lemma DelaysNeverShrink(rs: seq<Reasoning>, ds: seq<Deferral>, i: nat, j: nat)
    requires DeferralRun(rs, ds) && CapsAddUp(rs[0]) && i <= j < |ds|
    requires MaximumFor(ds[i].kind) <= MaximumFor(ds[j].kind) && ds[i].hint <= ds[j].hint
    ensures BASE <= DelayOf(rs[i], ds[i]) <= DelayOf(rs[j], ds[j]) <= MaximumFor(ds[j].kind)
  {
    DeferralsAddUp(rs, ds, i, j);
    var r, s := OrElse(rs[i].retries, 0, 0) + 1, OrElse(rs[j].retries, 0, 0) + 1;
    DelayMonotone(r, s, ds[i].hint, ds[j].hint, MaximumFor(ds[i].kind), MaximumFor(ds[j].kind));
    DelayInRange(r, ds[i].hint, MaximumFor(ds[i].kind));
    DelayInRange(s, ds[j].hint, MaximumFor(ds[j].kind));
  }
}
