/** The runtime ceilings, and the runs they are supposed to cover. */
module Ceilings {
  import opened Ticks
  import Chain

  const GRACE := 60
  const PASSES_UNDER_LOCK := 3

  datatype Defaults = Defaults(timeout: nat, retries: Chain.Retries)

  function AttemptBudget(d: Defaults): nat
  {
    2 * d.timeout * Chain.MaxLaunches(d.retries)
  }

  function AtLeast(floor: int, x: int): int { if x < floor then floor else x }

  function Calls(width: int, batches: int): int
  {
    AtLeast(1, width) * (AtLeast(0, batches) + 1)
  }

  function WorstRuntime(d: Defaults, width: int, batches: int): int
  {
    Calls(width, batches) * (AttemptBudget(d) + GRACE)
  }

  function LockCeiling(d: Defaults, width: int, batches: int): int
  {
    Calls(width, batches) * (PASSES_UNDER_LOCK * AttemptBudget(d) + GRACE)
  }

  function Ceil(x: real): int { -((-x).Floor) }

  /** `wait` is the request's provider allowance; without a request there is none to reserve. */
  function WaitOverhead(wait: Option<real>, batches: int, extra: nat): int
  {
    if wait.None? then 0
    else
      var calls := if batches != 0 then batches + 1 else 1;
      Ceil(Positive(wait.value * (calls + extra) as real - (GRACE * calls) as real))
  }

  function Positive(x: real): real { if x < 0.0 then 0.0 else x }

  function Sum(times: seq<real>): real
  {
    if times == [] then 0.0 else Sum(times[..|times| - 1]) + times[|times| - 1]
  }

  /** The longest one pass over a chain no wider than `width` takes: every launch at twice the timeout, and its own wait. */
  function PassBound(d: Defaults, width: int, wait: real): real
  {
    (AtLeast(1, width) * AttemptBudget(d)) as real + wait
  }

  /**
   * What a pass over a chain takes, on a clock of `res` ticks a second: a sound outcome's launches, none
   * longer than twice the timeout, and its waits stay within the bound of one pass.
   */
  lemma ChainFitsPass(w: Chain.World, d: Defaults, chain: nat, width: int, o: Chain.Outcome, wait: real, waited: nat, res: nat)
    requires 1 <= chain <= width && res >= 1 && waited as real <= wait * res as real
    requires Chain.Sound(w, d.retries, chain, o) && Chain.Capped(w, 2 * d.timeout * res)
    ensures (waited + Chain.Elapsed(w, o)) as real <= PassBound(d, width, wait) * res as real
  {
    Chain.LaunchesInTime(w, d.retries, chain, o, 2 * d.timeout * res);
    var a := AttemptBudget(d);
    assert chain * Chain.MaxLaunches(d.retries) * (2 * d.timeout * res) == chain * a * res by {
      LaunchTicks(chain, d, res);
    }
    TimesMonotone(chain, width, a);
    TimesMonotone(chain * a, width * a, res);
    TickBound(waited + Chain.Elapsed(w, o), width * a, wait, waited, res);
  }

  lemma LaunchTicks(width: nat, d: Defaults, res: nat)
    ensures width * Chain.MaxLaunches(d.retries) * (2 * d.timeout * res) == width * AttemptBudget(d) * res
  {
    var m, l := Chain.MaxLaunches(d.retries), 2 * d.timeout;
    assert AttemptBudget(d) == l * m;
    assert width * m * (l * res) == (width * (l * m)) * res by {
      assert width * m * (l * res) == ((width * m) * l) * res;
      assert (width * m) * l == width * (l * m);
    }
  }

  lemma TickBound(ticks: nat, work: nat, wait: real, waited: nat, res: nat)
    requires ticks <= waited + work * res && waited as real <= wait * res as real
    ensures ticks as real <= (work as real + wait) * res as real
  {
    assert (work * res) as real == work as real * res as real;
    assert (work as real + wait) * res as real == work as real * res as real + wait * res as real;
  }

  lemma {:induction false} SumBound(times: seq<real>, bound: real)
    requires forall k :: 0 <= k < |times| ==> times[k] <= bound
    ensures Sum(times) <= |times| as real * bound
  {
    if times != [] {
      SumBound(times[..|times| - 1], bound);
      assert |times| as real * bound == (|times| - 1) as real * bound + bound;
    }
  }

  lemma CeilAbove(x: real)
    ensures x <= Ceil(x) as real < x + 1.0
  {
  }

  lemma Products(w: nat, c: nat, extra: nat, a: nat, m: nat)
    requires w >= 1 && c + extra <= m * c
    ensures (c + extra) * (w * a) + GRACE * c <= w * c * (m * a + GRACE)
  {
    TimesMonotone(c + extra, m * c, w * a);
    Shuffle(m, c, w, a);
    TimesMonotone(1, w, c);
    assert w * c * (m * a + GRACE) == w * c * (m * a) + w * c * GRACE;
  }

  lemma TimesMonotone(a: nat, b: nat, k: nat)
    requires a <= b
    ensures a * k <= b * k
  {
  }

  lemma Shuffle(m: nat, c: nat, w: nat, a: nat)
    ensures (m * c) * (w * a) == w * c * (m * a)
  {
    assert (m * c) * (w * a) == m * (c * (w * a));
    assert c * (w * a) == (w * c) * a;
    assert m * ((w * c) * a) == (w * c) * (m * a);
  }

  /** Slack of `c` calls' grace plus the reserved overhead carries `c + extra` waits. */
  lemma WaitsCovered(wait: real, c: nat, extra: nat)
    ensures (c + extra) as real * wait
            <= (GRACE * c) as real + Ceil(Positive(wait * (c + extra) as real - (GRACE * c) as real)) as real
  {
    CeilAbove(Positive(wait * (c + extra) as real - (GRACE * c) as real));
  }

  lemma Covered(d: Defaults, width: int, c: nat, extra: nat, m: nat, wait: real, times: seq<real>)
    requires c + extra <= m * c && |times| == c + extra
    requires forall k :: 0 <= k < |times| ==> times[k] <= PassBound(d, width, wait)
    ensures Sum(times) <= (AtLeast(1, width) * c * (m * AttemptBudget(d) + GRACE)
                           + Ceil(Positive(wait * (c + extra) as real - (GRACE * c) as real))) as real
  {
    PassesSum(times, AtLeast(1, width) * AttemptBudget(d), wait);
    CoveredBy(AtLeast(1, width), AttemptBudget(d), c, extra, m, wait, Sum(times));
  }

  lemma PassesSum(times: seq<real>, work: nat, wait: real)
    requires forall k :: 0 <= k < |times| ==> times[k] <= work as real + wait
    ensures Sum(times) <= (|times| * work) as real + |times| as real * wait
  {
    SumBound(times, work as real + wait);
    PassesTime(|times|, work, wait);
  }

  lemma CoveredBy(w: nat, a: nat, c: nat, extra: nat, m: nat, wait: real, sum: real)
    requires w >= 1 && c + extra <= m * c
    requires sum <= ((c + extra) * (w * a)) as real + (c + extra) as real * wait
    ensures sum <= (w * c * (m * a + GRACE) + Ceil(Positive(wait * (c + extra) as real - (GRACE * c) as real))) as real
  {
    Products(w, c, extra, a, m);
    WaitsCovered(wait, c, extra);
    AddUp(sum, (c + extra) * (w * a), (c + extra) as real * wait, GRACE * c,
          Ceil(Positive(wait * (c + extra) as real - (GRACE * c) as real)), w * c * (m * a + GRACE));
  }

  lemma AddUp(sum: real, work: int, waits: real, grace: int, reserve: int, ceiling: int)
    requires sum <= work as real + waits && waits <= grace as real + reserve as real && work + grace <= ceiling
    ensures sum <= (ceiling + reserve) as real
  {
    assert (ceiling + reserve) as real == ceiling as real + reserve as real;
    assert (work + grace) as real == work as real + grace as real;
  }

  lemma PassesTime(n: nat, work: nat, wait: real)
    ensures n as real * (work as real + wait) == (n * work) as real + n as real * wait
  {
    assert n as real * work as real == (n * work) as real;
  }

  /** The record ceiling of a batched review covers its batches and the integration pass. */
  lemma ReviewCovered(d: Defaults, width: int, batches: nat, wait: real, times: seq<real>)
    requires |times| == batches + 1
    requires forall k :: 0 <= k < |times| ==> times[k] <= PassBound(d, width, wait)
    ensures Sum(times) <= (WorstRuntime(d, width, batches) + WaitOverhead(Some(wait), batches, 0)) as real
  {
    Covered(d, width, batches + 1, 0, 1, wait, times);
  }

  /** The lock ceiling covers two further passes as well. */
  lemma LockCovered(d: Defaults, width: int, batches: nat, wait: real, times: seq<real>)
    requires |times| == batches + 1 + 2
    requires forall k :: 0 <= k < |times| ==> times[k] <= PassBound(d, width, wait)
    ensures Sum(times) <= (LockCeiling(d, width, batches) + WaitOverhead(Some(wait), batches, 2)) as real
  {
    Covered(d, width, batches + 1, 2, PASSES_UNDER_LOCK, wait, times);
  }

  // ------------------------------------------------------- outside a request

  /** A wait in whole ticks. */
  function WholeTicks(wait: real, res: nat): nat
    requires wait >= 0.0
  {
    (wait * res as real).Floor
  }

  /** How long the longest run of one pass takes, in seconds, on a clock of `res` ticks a second. */
  function Longest(d: Defaults, width: int, wait: real, res: nat): real
    requires wait >= 0.0 && res >= 1
  {
    (AtLeast(1, width) * AttemptBudget(d)) as real + Chain.LongestWait(WholeTicks(wait, res)) as real / res as real
  }

  /** There is such a run: every launch at twice the timeout behind the longest wait that is still granted. */
  method LongestPass(d: Defaults, width: int, wait: real, res: nat) returns (ticks: int)
    requires wait >= 0.0 && res >= 1
    ensures ticks as real / res as real == Longest(d, width, wait, res)
  {
    var w := AtLeast(1, width);
    ticks := Chain.LongestRun(d.retries, 2 * d.timeout * res, w, WholeTicks(wait, res));
    LaunchTicks(w, d, res);
    InSeconds(w * AttemptBudget(d), Chain.LongestWait(WholeTicks(wait, res)), res);
  }

  lemma InSeconds(work: nat, rest: nat, res: nat)
    requires res >= 1
    ensures (work * res + rest) as real / res as real == work as real + rest as real / res as real
  {
    assert (work * res + rest) as real == work as real * res as real + rest as real;
  }

  /** The longest run falls short of the bound by less than two ticks. */
  lemma NearBound(d: Defaults, width: int, wait: real, res: nat)
    requires wait >= 0.0 && res >= 1
    ensures PassBound(d, width, wait) - 2.0 / res as real < Longest(d, width, wait, res) <= PassBound(d, width, wait)
  {
    var x := wait * res as real;
    var n := Chain.LongestWait(WholeTicks(wait, res)) as real;
    assert x - 2.0 < n <= x;
    Divided(x - 2.0, n, res as real);
    Divided(n, x, res as real);
    assert x / res as real == wait;
    assert (x - 2.0) / res as real == wait - 2.0 / res as real;
  }

  lemma Divided(a: real, b: real, r: real)
    requires r > 0.0
    ensures a <= b ==> a / r <= b / r
    ensures a < b ==> a / r < b / r
  {
    assert a == a / r * r && b == b / r * r;
    if a / r > b / r {
      assert (a / r) * r > (b / r) * r;
    }
  }

  /** The ceiling covers `n` passes of the longest runs, on every clock. */
  ghost predicate Covers(d: Defaults, width: int, wait: real, n: nat, ceiling: int)
    requires wait >= 0.0
  {
    forall res: nat :: res >= 1 ==> n as real * Longest(d, width, wait, res) <= ceiling as real
  }

  /** A ceiling covers `n` passes of every run, on every clock, exactly when it covers `n` bounds of a pass. */
  lemma RunsFitExactly(d: Defaults, width: int, wait: real, n: nat, ceiling: int)
    requires wait >= 0.0 && n >= 1
    ensures Covers(d, width, wait, n, ceiling) <==> n as real * PassBound(d, width, wait) <= ceiling as real
  {
    if n as real * PassBound(d, width, wait) <= ceiling as real {
      forall res: nat | res >= 1
        ensures n as real * Longest(d, width, wait, res) <= ceiling as real
      {
        NearBound(d, width, wait, res);
        Scaled(n as real, Longest(d, width, wait, res), PassBound(d, width, wait));
      }
    } else {
      var res := SomeRunOutlives(d, width, wait, n, ceiling as real);
    }
  }

  /** On a fine enough clock, the longest runs outlive any ceiling below the bound. */
  lemma SomeRunOutlives(d: Defaults, width: int, wait: real, n: nat, ceiling: real) returns (res: nat)
    requires wait >= 0.0 && n >= 1 && n as real * PassBound(d, width, wait) > ceiling
    ensures res >= 1 && n as real * Longest(d, width, wait, res) > ceiling
  {
    var gap := n as real * PassBound(d, width, wait) - ceiling;
    res := FineClock(n, gap);
    NearBound(d, width, wait, res);
    Scaled(n as real, PassBound(d, width, wait) - 2.0 / res as real, Longest(d, width, wait, res));
    Distributes(n as real, PassBound(d, width, wait), 2.0 / res as real);
  }

  lemma Distributes(n: real, a: real, b: real)
    ensures n * (a - b) == n * a - n * b
  {
  }

  lemma Quotient(a: real, b: real)
    requires a >= 0.0 && b > 0.0
    ensures a / b >= 0.0
  {
  }

  lemma FineClock(n: nat, gap: real) returns (res: nat)
    requires n >= 1 && gap > 0.0
    ensures res >= 1 && n as real * (2.0 / res as real) < gap
  {
    var x := 2.0 * n as real / gap;
    Quotient(2.0 * n as real, gap);
    res := x.Floor + 1;
    FineEnough(n, gap, res);
  }

  lemma Scaled(n: real, a: real, b: real)
    requires n > 0.0 && a <= b
    ensures n * a <= n * b
  {
  }

  lemma FineEnough(n: nat, gap: real, res: nat)
    requires n >= 1 && gap > 0.0 && res >= 1 && res as real > 2.0 * n as real / gap
    ensures n as real * (2.0 / res as real) < gap
  {
    var x := 2.0 * n as real;
    assert x / gap * gap == x;
    assert res as real * gap > x / gap * gap;
    assert n as real * (2.0 / res as real) == x / res as real;
    Divided(x, res as real * gap, res as real);
    assert res as real * gap / res as real == gap;
  }

  /** What the record ceiling leaves over the bounds of its passes. */
  lemma RecordSlack(d: Defaults, width: int, batches: int, wait: real)
    ensures var c := AtLeast(0, batches) + 1;
            WorstRuntime(d, width, batches) as real - c as real * PassBound(d, width, wait)
            == c as real * ((GRACE * AtLeast(1, width)) as real - wait)
  {
    var w, c, a := AtLeast(1, width), AtLeast(0, batches) + 1, AttemptBudget(d);
    RecordParts(w, c, a);
    Leftover(c, w * a, GRACE * w, wait);
  }

  lemma RecordParts(w: nat, c: nat, a: nat)
    ensures w * c * (a + GRACE) == c * (w * a) + c * (GRACE * w)
  {
    assert w * c * (a + GRACE) == (w * c) * a + (w * c) * GRACE;
    assert (w * c) * a == c * (w * a);
  }

  lemma Leftover(c: nat, work: nat, grace: nat, wait: real)
    ensures (c * work + c * grace) as real - c as real * (work as real + wait) == c as real * (grace as real - wait)
  {
    assert (c * work + c * grace) as real == c as real * work as real + c as real * grace as real;
    assert c as real * (work as real + wait) == c as real * work as real + c as real * wait;
  }

  /**
   * Outside a request nothing is reserved for the wait: the record ceiling covers the longest runs of
   * all its passes, on every clock, exactly when the wait fits the chain's own grace.
   */
  lemma CoveredWithoutRequest(d: Defaults, width: int, batches: int, wait: real)
    requires wait >= 0.0
    ensures Covers(d, width, wait, AtLeast(0, batches) + 1, WorstRuntime(d, width, batches) + WaitOverhead(None, batches, 0))
            <==> wait <= (GRACE * AtLeast(1, width)) as real
  {
    var c: nat := AtLeast(0, batches) + 1;
    RunsFitExactly(d, width, wait, c, WorstRuntime(d, width, batches) + WaitOverhead(None, batches, 0));
    RecordSlack(d, width, batches, wait);
    SignOfProduct(c as real, (GRACE * AtLeast(1, width)) as real - wait);
  }

  /** What the lock ceiling leaves over the launches of all passes under it. */
  function LockSlack(d: Defaults, width: int, batches: int): int
  {
    AtLeast(1, width) * (2 * AtLeast(0, batches) * AttemptBudget(d) + (AtLeast(0, batches) + 1) * GRACE)
  }

  lemma LockParts(w: nat, b: nat, a: nat)
    ensures w * (b + 1) * (3 * a + GRACE) == (b + 3) * (w * a) + w * (2 * b * a + (b + 1) * GRACE)
  {
    assert w * (b + 1) * (3 * a + GRACE) == w * ((b + 1) * (3 * a + GRACE));
    assert (b + 1) * (3 * a + GRACE) == (b + 3) * a + (2 * b * a + (b + 1) * GRACE) by {
      assert (b + 1) * (3 * a + GRACE) == b * (3 * a) + b * GRACE + 3 * a + GRACE;
      assert b * (3 * a) == b * a + 2 * b * a;
      assert (b + 3) * a == b * a + 3 * a;
      assert (b + 1) * GRACE == b * GRACE + GRACE;
    }
    assert w * ((b + 3) * a + (2 * b * a + (b + 1) * GRACE)) == w * ((b + 3) * a) + w * (2 * b * a + (b + 1) * GRACE);
    assert w * ((b + 3) * a) == (b + 3) * (w * a);
  }

  /**
   * The lock ceiling, for any number of batches: the review's passes and two more are covered on every
   * clock exactly when all their waits fit what the other passes' launches and the grace leave over.
   */
  lemma LockCoveredWithoutRequest(d: Defaults, width: int, batches: int, wait: real)
    requires wait >= 0.0
    ensures Covers(d, width, wait, AtLeast(0, batches) + 3, LockCeiling(d, width, batches) + WaitOverhead(None, batches, 2))
            <==> (AtLeast(0, batches) + 3) as real * wait <= LockSlack(d, width, batches) as real
  {
    var n: nat := AtLeast(0, batches) + 3;
    var w, a := AtLeast(1, width), AttemptBudget(d);
    RunsFitExactly(d, width, wait, n, LockCeiling(d, width, batches) + WaitOverhead(None, batches, 2));
    LockParts(w, AtLeast(0, batches), a);
    assert LockCeiling(d, width, batches) == n * (w * a) + LockSlack(d, width, batches);
    assert PassBound(d, width, wait) == (w * a) as real + wait;
    WaitsFit(n, w * a, wait, LockSlack(d, width, batches));
  }

  lemma WaitsFit(n: nat, work: nat, wait: real, slack: int)
    ensures n as real * (work as real + wait) <= (n * work + slack) as real <==> n as real * wait <= slack as real
  {
    PassesTime(n, work, wait);
  }

  lemma SignOfProduct(c: real, x: real)
    requires c >= 1.0
    ensures c * x >= 0.0 <==> x >= 0.0
  {
    if x < 0.0 {
      assert c * x <= x;
    }
  }

  /** A wait of 61 seconds on an unbatched single-entry chain: at two ticks a second the longest run already outlives the ceiling. */
  lemma UnreservedWaitOutlives()
    ensures var d := Defaults(1, Chain.Retries(0, 0));
            Longest(d, 1, 61.0, 2) > (WorstRuntime(d, 1, 0) + WaitOverhead(None, 0, 0)) as real
  {
    assert WholeTicks(61.0, 2) == 122;
  }

  /** For chains of one entry whose wait outgrows the grace, no smaller reserve would do. */
  lemma ReserveIsTight(d: Defaults, batches: nat, wait: real)
    requires wait > GRACE as real
    ensures !Covers(d, 1, wait, batches + 1, WorstRuntime(d, 1, batches) + WaitOverhead(Some(wait), batches, 0) - 1)
  {
    var c := batches + 1;
    RecordSlack(d, 1, batches, wait);
    var x := wait * c as real - (GRACE * c) as real;
    assert x == c as real * (wait - GRACE as real);
    SignOfProduct(c as real, wait - GRACE as real);
    CeilAbove(x);
    RunsFitExactly(d, 1, wait, c, WorstRuntime(d, 1, batches) + WaitOverhead(Some(wait), batches, 0) - 1);
  }
}
