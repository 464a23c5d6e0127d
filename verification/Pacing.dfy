/**
 The shared control-plane gate: jittered exponential backoff with the
 server's Retry-After as a floor (apps/provisioning-agent/src/pacing.rs;
 section 10.2.3 of RFC 9110). Instants and durations are real seconds.
 */
module Pacing {
  import opened Prelude

  const MAX_EXPONENT := 20
  const U32_MAX := 0xffff_ffff

  /** `base` times two to the power `k`. */
  function Doubled(base: real, k: nat): real
  {
    if k == 0 then base else 2.0 * Doubled(base, k - 1)
  }

  function MinReal(a: real, b: real): real { if a <= b then a else b }

  function MaxReal(a: real, b: real): real { if a <= b then b else a }

  function Exponent(failures: nat): nat
  {
    Min(failures, MAX_EXPONENT)
  }

  /** The step of the ladder reached after this many failures. */
  function StepAt(base: real, cap: real, failures: nat): real
  {
    MinReal(Doubled(base, Exponent(failures)), cap)
  }

  function ClampUnit(x: real): real
  {
    if x < 0.0 then 0.0 else if x > 1.0 then 1.0 else x
  }

  /** Half the step fixed, half of it random. */
  function Delay(base: real, cap: real, failures: nat, jitter: real): real
  {
    Jittered(StepAt(base, cap, failures), ClampUnit(jitter))
  }

  function Jittered(step: real, unit: real): real
  {
    (1.0 + unit) * (step / 2.0)
  }

  /** How long to wait, given the failures so far and a random draw. */
  type Wait = (nat, real) -> real

  function Backoff(base: real, cap: real): Wait
  {
    (failures: nat, jitter: real) => Delay(base, cap, failures, jitter)
  }

  function OneMore(failures: nat): nat
  {
    Min(failures + 1, U32_MAX)
  }

  predicate Before(u: real, until: Option<real>)
  {
    until.Some? && u < until.value
  }

  function Later(a: Option<real>, b: real): Option<real>
  {
    Some(if a.Some? then MaxReal(a.value, b) else b)
  }

  class ControlPlaneGate {
    const base: real
    const cap: real
    var failures: nat
    var blockedUntil: Option<real>
    var serverMinimumUntil: Option<real>

    ghost function View(): Gate
      reads this
    {
      Gate(failures, blockedUntil, serverMinimumUntil)
    }

    constructor (base: real, cap: real)
      ensures this.base == base && this.cap == cap && View() == OPEN_GATE
    {
      this.base, this.cap := base, cap;
      failures, blockedUntil, serverMinimumUntil := 0, None, None;
    }

    /** The remaining wait, if the gate is closed. */
    method CheckAt(now: real) returns (remaining: Option<real>)
      ensures remaining.Some? <==> Before(now, blockedUntil)
      ensures remaining.Some? ==> 0.0 < remaining.value && now + remaining.value == blockedUntil.value
    {
      if blockedUntil.Some? && blockedUntil.value > now {
        return Some(blockedUntil.value - now);
      }
      remaining := None;
    }

    method NextDelay(jitter: real) returns (delay: real)
      modifies this`failures
      ensures delay == Delay(base, cap, old(failures), jitter) && failures == OneMore(old(failures))
    {
      var step := StepAt(base, cap, failures);
      failures := OneMore(failures);
      delay := Jittered(step, ClampUnit(jitter));
    }

    method RecordSuccess(now: real)
      modifies this
      ensures View() == AfterSuccess(old(View()), now)
    {
      failures := 0;
      blockedUntil := if Before(now, serverMinimumUntil) then serverMinimumUntil else None;
    }

    method RecordFailureAt(now: real, retryAfter: Option<real>, jitter: real)
      modifies this
      ensures View() == AfterFailure(old(View()), Backoff(base, cap), now, retryAfter, jitter)
    {
      var own := NextDelay(jitter);
      var delay := if retryAfter.Some? then MaxReal(retryAfter.value, own) else own;
      if retryAfter.Some? {
        serverMinimumUntil := Later(serverMinimumUntil, now + retryAfter.value);
      }
      blockedUntil := Later(blockedUntil, now + delay);
    }
  }

  datatype Gate = Gate(failures: nat, blockedUntil: Option<real>, serverMinimumUntil: Option<real>)

  const OPEN_GATE := Gate(0, None, None)

  function AfterSuccess(g: Gate, now: real): Gate
  {
    Gate(0, if Before(now, g.serverMinimumUntil) then g.serverMinimumUntil else None, g.serverMinimumUntil)
  }

  function AfterFailure(g: Gate, wait: Wait, now: real, retryAfter: Option<real>, jitter: real): Gate
  {
    var own := wait(g.failures, jitter);
    var delay := if retryAfter.Some? then MaxReal(retryAfter.value, own) else own;
    Gate(OneMore(g.failures),
         Later(g.blockedUntil, now + delay),
         if retryAfter.Some? then Later(g.serverMinimumUntil, now + retryAfter.value) else g.serverMinimumUntil)
  }

  // ------------------------------------------------------------- history

  datatype Event = Success(at: real) | Failure(at: real, retryAfter: Option<real>, jitter: real)

  ghost predicate InOrder(h: seq<Event>)
  {
    forall i, j :: 0 <= i < j < |h| ==> h[i].at <= h[j].at
  }

  function AfterEvent(g: Gate, wait: Wait, e: Event): Gate
  {
    match e
    case Success(at) => AfterSuccess(g, at)
    case Failure(at, retryAfter, jitter) => AfterFailure(g, wait, at, retryAfter, jitter)
  }

  function GateAfter(h: seq<Event>, wait: Wait): Gate
  {
    if h == [] then OPEN_GATE else AfterEvent(GateAfter(h[..|h| - 1], wait), wait, h[|h| - 1])
  }

  /** This failure's Retry-After still runs at `u`. */
  predicate Forbids(e: Event, u: real)
  {
    e.Failure? && e.retryAfter.Some? && u < e.at + e.retryAfter.value
  }

  ghost predicate ServerForbids(h: seq<Event>, u: real)
  {
    exists i :: 0 <= i < |h| && Forbids(h[i], u)
  }

  /** Failures in an unbroken row ending just before event `i`. */
  function FailuresInARow(h: seq<Event>, i: nat): nat
    requires i <= |h|
  {
    if i == 0 || h[i - 1].Success? then 0 else FailuresInARow(h, i - 1) + 1
  }

  /** As far as 32 bits count. */
  function Counted(failures: nat): nat
  {
    if failures < 0x1_0000_0000 then failures else 0xffff_ffff
  }

  /** Event `i` is a failure, no success has come since, and its own wait still runs at `u`. */
  predicate WaitRuns(h: seq<Event>, wait: Wait, u: real, i: nat)
    requires i < |h|
  {
    && (forall j :: i <= j < |h| ==> h[j].Failure?)
    && u < h[i].at + wait(Counted(FailuresInARow(h, i)), h[i].jitter)
  }

  ghost predicate BackoffRuns(h: seq<Event>, wait: Wait, u: real)
  {
    exists i :: 0 <= i < |h| && WaitRuns(h, wait, u, i)
  }

  lemma {:induction false} RowOfPrefix(h: seq<Event>, n: nat, i: nat)
    requires i <= n <= |h|
    ensures FailuresInARow(h[..n], i) == FailuresInARow(h, i)
  {
    if i > 0 { RowOfPrefix(h, n, i - 1); }
  }

  lemma {:induction false} LadderIsRow(h: seq<Event>, wait: Wait)
    ensures GateAfter(h, wait).failures == Counted(FailuresInARow(h, |h|))
  {
    if h != [] {
      var n := |h| - 1;
      LadderIsRow(h[..n], wait);
      RowOfPrefix(h, n, n);
    }
  }

  lemma ForbidsStep(h: seq<Event>, u: real)
    requires h != []
    ensures ServerForbids(h, u) <==> ServerForbids(h[..|h| - 1], u) || Forbids(h[|h| - 1], u)
  {
    var n := |h| - 1;
    if ServerForbids(h[..n], u) {
      var i :| 0 <= i < n && Forbids(h[..n][i], u);
      assert h[i] == h[..n][i];
    }
    if ServerForbids(h, u) {
      var i :| 0 <= i < |h| && Forbids(h[i], u);
      if i < n { assert h[..n][i] == h[i]; }
    }
  }

  lemma WaitOfPrefix(h: seq<Event>, wait: Wait, u: real, i: nat)
    requires i < |h| - 1
    ensures WaitRuns(h, wait, u, i) <==> h[|h| - 1].Failure? && WaitRuns(h[..|h| - 1], wait, u, i)
  {
    var n := |h| - 1;
    RowOfPrefix(h, n, i);
    assert forall j :: i <= j < n ==> h[..n][j] == h[j];
  }

  lemma BackoffStep(h: seq<Event>, wait: Wait, u: real)
    requires h != []
    ensures var n := |h| - 1;
            BackoffRuns(h, wait, u) <==> WaitRuns(h, wait, u, n) || (h[n].Failure? && BackoffRuns(h[..n], wait, u))
  {
    var n := |h| - 1;
    if h[n].Failure? && BackoffRuns(h[..n], wait, u) {
      var i :| 0 <= i < n && WaitRuns(h[..n], wait, u, i);
      WaitOfPrefix(h, wait, u, i);
    }
    if BackoffRuns(h, wait, u) {
      var i :| 0 <= i < |h| && WaitRuns(h, wait, u, i);
      if i < n { WaitOfPrefix(h, wait, u, i); }
    }
  }

  lemma {:induction false} FloorIsServer(h: seq<Event>, wait: Wait, u: real)
    ensures Before(u, GateAfter(h, wait).serverMinimumUntil) <==> ServerForbids(h, u)
  {
    if h != [] {
      FloorIsServer(h[..|h| - 1], wait, u);
      ForbidsStep(h, u);
    }
  }

  /**
   After any interleaving of successes and failures in time order, the gate
   is closed at a later instant if and only if some Retry-After, however long
   ago, still runs, or the backoff of a failure since the last success does.
   */
  lemma {:induction false} ClosedIff(h: seq<Event>, wait: Wait, u: real)
    requires InOrder(h) && (h != [] ==> h[|h| - 1].at <= u)
    ensures Before(u, GateAfter(h, wait).blockedUntil) <==> ServerForbids(h, u) || BackoffRuns(h, wait, u)
  {
    if h != [] {
      var n := |h| - 1;
      assert n > 0 ==> h[n - 1].at <= h[n].at;
      ClosedIff(h[..n], wait, u);
      ForbidsStep(h, u);
      BackoffStep(h, wait, u);
      FloorIsServer(h[..n], wait, u);
      LadderIsRow(h[..n], wait);
      RowOfPrefix(h, n, n);
    }
  }

  /** A failure never shortens a running wait, and honours both its Retry-After and its own backoff. */
  lemma FailureNeverShortens(h: seq<Event>, wait: Wait, e: Event)
    requires e.Failure?
    ensures var before, after := GateAfter(h, wait), GateAfter(h + [e], wait);
            && after.blockedUntil.Some?
            && (before.blockedUntil.Some? ==> before.blockedUntil.value <= after.blockedUntil.value)
            && (e.retryAfter.Some? ==> e.at + e.retryAfter.value <= after.blockedUntil.value)
            && e.at + wait(before.failures, e.jitter) <= after.blockedUntil.value
  {
    assert (h + [e])[..|h|] == h && (h + [e])[|h|] == e;
  }

  // -------------------------------------------------------------- outage

  lemma {:induction false} DoublingGrows(base: real, a: nat, b: nat)
    requires base > 0.0 && a <= b
    ensures 0.0 < Doubled(base, a) <= Doubled(base, b)
    decreases b
  {
    if a < b { DoublingGrows(base, a, b - 1); } else if a > 0 { DoublingGrows(base, a - 1, a - 1); }
  }

  /** The ladder is at the cap after this many steps. */
  predicate ReachesCap(base: real, cap: real, steps: nat)
  {
    steps <= MAX_EXPONENT && cap <= Doubled(base, steps)
  }

  lemma AtCap(base: real, cap: real, steps: nat, failures: nat)
    requires base > 0.0 && ReachesCap(base, cap, steps) && steps <= failures
    ensures StepAt(base, cap, failures) == cap
  {
    DoublingGrows(base, steps, Exponent(failures));
  }

  lemma PartOf(half: real, unit: real)
    requires 0.0 <= half && 0.0 <= unit <= 1.0
    ensures 0.0 <= half * unit <= half
  {
    assert half * unit + half * (1.0 - unit) == half;
  }

  lemma HalfPlusPart(half: real, unit: real)
    requires 0.0 <= half && 0.0 <= unit <= 1.0
    ensures half <= (1.0 + unit) * half <= 2.0 * half
  {
    PartOf(half, unit);
  }

  lemma JitterBounds(step: real, unit: real)
    requires 0.0 <= step && 0.0 <= unit <= 1.0
    ensures step / 2.0 <= Jittered(step, unit) <= step
  {
    HalfPlusPart(step / 2.0, unit);
  }

  lemma StepBounds(base: real, cap: real, failures: nat)
    requires base > 0.0 && cap > 0.0
    ensures 0.0 < StepAt(base, cap, failures) <= cap
  {
    DoublingGrows(base, 0, Exponent(failures));
  }

  lemma DoublesUnderCap(base: real, cap: real, k: nat)
    ensures MinReal(Doubled(base, k + 1), cap) == MinReal(2.0 * Doubled(base, k), cap)
  {}

  /** The ladder starts at the base, doubles with every failure up to the twentieth and the cap, and stays there. */
  lemma LadderClimbs(base: real, cap: real, failures: nat)
    requires base > 0.0 && cap > 0.0
    ensures StepAt(base, cap, 0) == MinReal(base, cap)
    ensures failures < 20 ==> StepAt(base, cap, failures + 1) == MinReal(2.0 * StepAt(base, cap, failures), cap)
    ensures failures >= 20 ==> StepAt(base, cap, failures) == StepAt(base, cap, 20)
  {
    if failures < 20 { DoublesUnderCap(base, cap, failures); }
  }

  /** A delay is between half its step and the whole of it, both reached, never above the cap, never near zero. */
  lemma DelayBounds(base: real, cap: real, failures: nat, jitter: real)
    requires base > 0.0 && cap > 0.0
    ensures var step := StepAt(base, cap, failures);
            && 0.0 < step <= cap && step / 2.0 <= Backoff(base, cap)(failures, jitter) <= step
            && (jitter <= 0.0 ==> Backoff(base, cap)(failures, jitter) == step / 2.0)
            && (jitter >= 1.0 ==> Backoff(base, cap)(failures, jitter) == step)
  {
    StepBounds(base, cap, failures);
    var step, unit := StepAt(base, cap, failures), ClampUnit(jitter);
    JitterBounds(step, unit);
    assert Backoff(base, cap)(failures, jitter) == Jittered(step, unit);
  }

  /** After `prior`, whatever it was, every attempt passes the gate and fails. */
  ghost predicate Outage(prior: seq<Event>, h: seq<Event>, wait: Wait)
  {
    && InOrder(h)
    && forall i :: 0 <= i < |h| ==> h[i].Failure? && !Before(h[i].at, GateAfter(prior + h[..i], wait).blockedUntil)
  }

  lemma {:induction false} LadderBounded(h: seq<Event>, wait: Wait)
    ensures GateAfter(h, wait).failures <= U32_MAX
  {
    if h != [] { LadderBounded(h[..|h| - 1], wait); }
  }

  lemma GateStep(prior: seq<Event>, h: seq<Event>, wait: Wait, i: nat)
    requires 0 < i <= |h|
    ensures GateAfter(prior + h[..i], wait) == AfterEvent(GateAfter(prior + h[..i - 1], wait), wait, h[i - 1])
    ensures prior + h[..i] == prior + h[..i - 1] + [h[i - 1]]
  {
    var s := prior + h[..i];
    assert s[..|s| - 1] == prior + h[..i - 1] && s[|s| - 1] == h[i - 1];
  }

  /** The ladder is at least as high as the failures of this outage, and no higher than it can count. */
  lemma {:induction false} OutageLadder(prior: seq<Event>, h: seq<Event>, wait: Wait, i: nat)
    requires Outage(prior, h, wait) && i <= |h|
    ensures Min(i, U32_MAX) <= GateAfter(prior + h[..i], wait).failures <= U32_MAX
  {
    LadderBounded(prior + h[..i], wait);
    if i > 0 {
      OutageLadder(prior, h, wait, i - 1);
      GateStep(prior, h, wait, i);
    }
  }

  /** Two attempts in a row are at least the wait of the first apart. */
  lemma OutageGap(prior: seq<Event>, h: seq<Event>, wait: Wait, i: nat)
    requires Outage(prior, h, wait) && 0 < i < |h|
    ensures h[i - 1].at + wait(GateAfter(prior + h[..i - 1], wait).failures, h[i - 1].jitter) <= h[i].at
  {
    GateStep(prior, h, wait, i);
    FailureNeverShortens(prior + h[..i - 1], wait, h[i - 1]);
  }

  /** `n` times `x`, by addition. */
  function Times(n: nat, x: real): real
  {
    if n == 0 then 0.0 else Times(n - 1, x) + x
  }

  lemma OneMoreTimes(m: real, x: real)
    ensures (m + 1.0) * x == m * x + x
  {}

  lemma {:induction false} TimesIsProduct(n: nat, x: real)
    ensures Times(n, x) == n as real * x
  {
    if n > 0 {
      TimesIsProduct(n - 1, x);
      assert n as real == (n - 1) as real + 1.0;
      OneMoreTimes((n - 1) as real, x);
    }
  }

  predicate GapBefore(h: seq<Event>, i: nat, gap: real)
    requires 0 < i < |h|
  {
    h[i - 1].at + gap <= h[i].at
  }

  lemma {:induction false} Spread(h: seq<Event>, steps: nat, gap: real, i: nat)
    requires InOrder(h) && steps <= i < |h| && forall k :: steps < k < |h| ==> GapBefore(h, k, gap)
    ensures h[0].at + Times(i - steps, gap) <= h[i].at
  {
    if i == steps {
      assert i > 0 ==> h[0].at <= h[i].at;
    } else {
      Spread(h, steps, gap, i - 1);
      assert GapBefore(h, i, gap);
      SpreadStep(h[0].at, h[i - 1].at, h[i].at, i - 1 - steps, gap);
    }
  }

  lemma SpreadStep(start: real, before: real, next: real, n: nat, gap: real)
    requires start + Times(n, gap) <= before && before + gap <= next
    ensures start + Times(n + 1, gap) <= next
  {}

  lemma CappedGap(prior: seq<Event>, h: seq<Event>, base: real, cap: real, steps: nat, i: nat)
    requires Outage(prior, h, Backoff(base, cap)) && base > 0.0 && cap > 0.0 && ReachesCap(base, cap, steps)
    requires steps < i < |h|
    ensures GapBefore(h, i, cap / 2.0)
  {
    var wait := Backoff(base, cap);
    var failures := GateAfter(prior + h[..i - 1], wait).failures;
    OutageGap(prior, h, wait, i);
    OutageLadder(prior, h, wait, i - 1);
    DelayBounds(base, cap, failures, h[i - 1].jitter);
    AtCap(base, cap, steps, failures);
  }

  /**
   While every attempt fails, after any history of successes and failures, the
   attempts within a time `span` number at most the steps to the cap, plus
   one, plus two per cap of time, whatever the jitter and the Retry-After
   values.
   */
  lemma AttemptsInOutage(prior: seq<Event>, h: seq<Event>, base: real, cap: real, steps: nat, span: real)
    requires Outage(prior, h, Backoff(base, cap)) && base > 0.0 && cap > 0.0 && ReachesCap(base, cap, steps)
    requires h != [] && h[|h| - 1].at - h[0].at <= span
    ensures |h| as real <= steps as real + 1.0 + 2.0 * span / cap
  {
    var gap := cap / 2.0;
    GapsFromCap(prior, h, base, cap, steps, gap);
    var extra := BeyondLadder(h, steps, gap);
    AttemptBound(|h|, steps, extra, gap, cap, span);
  }

  lemma AttemptBound(n: nat, steps: nat, extra: nat, gap: real, cap: real, span: real)
    requires cap > 0.0 && gap == cap / 2.0 && n <= steps + 1 + extra && Times(extra, gap) <= span
    ensures n as real <= steps as real + 1.0 + 2.0 * span / cap
  {
    CapsInSpan(extra, cap, span);
  }

  lemma GapsFromCap(prior: seq<Event>, h: seq<Event>, base: real, cap: real, steps: nat, gap: real)
    requires Outage(prior, h, Backoff(base, cap)) && base > 0.0 && cap > 0.0 && ReachesCap(base, cap, steps)
    requires gap == cap / 2.0
    ensures forall i :: steps < i < |h| ==> GapBefore(h, i, gap)
  {
    forall i | steps < i < |h| ensures GapBefore(h, i, gap) {
      CappedGap(prior, h, base, cap, steps, i);
    }
  }

  /** How many attempts come after the ladder is climbed, and how much time they take. */
  lemma BeyondLadder(h: seq<Event>, steps: nat, gap: real) returns (extra: nat)
    requires InOrder(h) && h != [] && forall i :: steps < i < |h| ==> GapBefore(h, i, gap)
    ensures |h| <= steps + 1 + extra && Times(extra, gap) <= h[|h| - 1].at - h[0].at
  {
    var n := |h| - 1;
    if steps <= n {
      extra := n - steps;
      Spread(h, steps, gap, n);
    } else {
      extra := 0;
      assert n > 0 ==> h[0].at <= h[n].at;
    }
  }

  lemma CapsInSpan(extra: nat, cap: real, span: real)
    requires cap > 0.0 && Times(extra, cap / 2.0) <= span
    ensures extra as real <= 2.0 * span / cap
  {
    TimesIsProduct(extra, cap / 2.0);
    var x := extra as real;
    assert x * cap <= 2.0 * span;
    assert x == (x * cap) / cap;
  }

  /** Any configured base (1 to 30 s) reaches any configured cap (5 to 900 s) within ten steps. */
  lemma ConfiguredLadder(base: real, cap: real)
    requires 1.0 <= base <= 30.0 && 5.0 <= cap <= 900.0
    ensures ReachesCap(base, cap, 10)
  {
    Doubled4(base, 0);
    Doubled4(base, 2);
    Doubled4(base, 4);
    Doubled4(base, 6);
    Doubled4(base, 8);
  }

  lemma Doubled4(base: real, k: nat)
    ensures Doubled(base, k + 2) == 4.0 * Doubled(base, k)
  {
    assert Doubled(base, k + 2) == 2.0 * Doubled(base, k + 1);
  }
}
