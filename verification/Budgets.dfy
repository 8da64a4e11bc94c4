/** Queue, provider-wait, review and total budgets of one execution, measured exactly. */
module Budgets {
  import opened Ticks

  datatype Reason = TotalExhausted | QueueExhausted | ReviewExhausted | Unavailable | Cancelled(code: string)

  /** Absent limits are unbounded; all limits are clock ticks. */
  datatype Limits = Limits(queue: Option<int>, review: Option<int>, providerWait: int, total: Option<int>)

  /** What polling the upstream token yields: quiet, set with an observed code, or an exception. */
  datatype Upstream = Quiet | Set(observed: Option<string>) | Raises

  function Max0(x: int): int { if x < 0 then 0 else x }

  function Later(a: int, b: int): int { if a < b then b else a }

  /** The queue stopwatch is exact, and so is its reading at the first provider launch. */
  ghost predicate QueueOk(log: seq<Span>, elapsed: int, since: Option<int>, started: int, last: int,
                          reviewStarted: Option<int>, atReviewStart: int)
  {
    && Metered(log, elapsed, since, started, last)
    && (forall k :: 0 <= k < |log| - 1 ==> !log[k].open)
    && (reviewStarted.Some? ==>
          started <= reviewStarted.value <= last && atReviewStart == Measure(log, started, reviewStarted.value))
  }

  /** The provider stopwatch is exact; token n is the n-th wait, and at most two are open. */
  ghost predicate WaitsOk(log: seq<Span>, elapsed: int, since: Option<int>, started: int, last: int, tokens: set<nat>)
  {
    && Metered(log, elapsed, since, started, last)
    && |tokens| <= 2
    && (forall n :: n in tokens <==> 1 <= n <= |log| && log[n - 1].open)
  }

  /** Opening a stay, or closing the latest one, changes nothing that is covered before. */
  lemma SameBefore(a: seq<Span>, b: seq<Span>, now: int, lo: int, hi: int)
    requires hi <= now
    requires b == a + [Span(now, now, true)]
             || (|a| > 0 && a[|a| - 1].open && b == a[|a| - 1 := Span(a[|a| - 1].from, now, false)])
    ensures Measure(a, lo, hi) == Measure(b, lo, hi) && Idle(a, lo, hi) == Idle(b, lo, hi)
  {
    forall t | t < now
      ensures Covered(a, t) <==> Covered(b, t)
    {
      if |b| > |a| {
        OpenCovers(a, now, t);
      } else {
        CloseCovers(a, |a| - 1, now, t);
      }
    }
    MeasureSame(a, b, lo, hi);
  }

  lemma OpenIffWaiting(log: seq<Span>, elapsed: int, since: Option<int>, started: int, last: int, tokens: set<nat>)
    requires WaitsOk(log, elapsed, since, started, last, tokens)
    ensures |tokens| == 0 <==> since.None?
  {
    if AnyOpen(log) {
      var k :| 0 <= k < |log| && log[k].open;
      assert k + 1 in tokens;
    }
    if |tokens| > 0 {
      var n :| n in tokens;
      assert log[n - 1].open;
    }
  }

  lemma WaitOpens(log: seq<Span>, elapsed: int, since: Option<int>, started: int, now: int, tokens: set<nat>)
    requires WaitsOk(log, elapsed, since, started, now, tokens) && |tokens| < 2
    ensures WaitsOk(log + [Span(now, now, true)], elapsed, if |tokens| == 0 then Some(now) else since, started, now,
                    tokens + {|log| + 1})
  {
    OpenIffWaiting(log, elapsed, since, started, now, tokens);
    MeterOpen(log, elapsed, since, started, now);
  }

  lemma WaitCloses(log: seq<Span>, elapsed: int, since: Option<int>, started: int, now: int, tokens: set<nat>, n: nat)
    requires WaitsOk(log, elapsed, since, started, now, tokens) && n in tokens
    ensures var log' := log[n - 1 := Span(log[n - 1].from, now, false)];
            since.Some? && started <= since.value <= now &&
            if tokens == {n} then WaitsOk(log', elapsed + (now - since.value), None, started, now, {})
            else WaitsOk(log', elapsed, since, started, now, tokens - {n})
  {
    var log' := log[n - 1 := Span(log[n - 1].from, now, false)];
    MeterClose(log, n - 1, elapsed, since, started, now);
    assert forall k :: 0 <= k < |log| ==> (log'[k].open <==> k != n - 1 && log[k].open);
    if tokens == {n} {
      assert forall k :: 0 <= k < |log| && log[k].open ==> k + 1 in tokens;
      assert !AnyOpen(log');
    } else {
      var m :| m in tokens && m != n;
      assert log'[m - 1].open;
    }
  }

  /** The state every handle of one execution shares. */
  class BudgetState {
    const limits: Limits
    const started: int
    var queueStarted: Option<int>
    var reviewStarted: Option<int>
    var providerWaitStarted: Option<int>
    var queueElapsed: int
    var providerWaitElapsed: int
    var queueAtReviewStart: int
    var ended: Option<int>
    var reason: Option<Reason>
    var markedReason: Option<string>
    var event: bool
    var waits: set<nat>
    var nextWait: nat

    /** Latest clock reading, and every queue stay and provider wait so far. */
    ghost var last: int
    ghost var queueLog: seq<Span>
    ghost var waitLog: seq<Span>

    ghost predicate Valid()
      reads this
    {
      && QueueOk(queueLog, queueElapsed, queueStarted, started, last, reviewStarted, queueAtReviewStart)
      && WaitsOk(waitLog, providerWaitElapsed, providerWaitStarted, started, last, waits)
      && nextWait == |waitLog|
      && (ended.Some? ==> started <= ended.value <= last
                          && (providerWaitStarted.Some? ==> providerWaitStarted.value <= ended.value))
    }

    constructor (limits: Limits, now: int)
      ensures Valid() && this.limits == limits && started == now == last
      ensures queueLog == [] && waitLog == [] && reason.None? && ended.None? && reviewStarted.None?
      ensures queueStarted.None? && queueElapsed == 0
    {
      this.limits, started, last := limits, now, now;
      queueStarted, reviewStarted, providerWaitStarted := None, None, None;
      queueElapsed, providerWaitElapsed, queueAtReviewStart := 0, 0, 0;
      ended, reason, markedReason := None, None, None;
      event, waits, nextWait := false, {}, 0;
      queueLog, waitLog := [], [];
      new;
      MeasureNone([], started, last);
    }

    // ------------------------------------------------------------ readings

    function QueueSeconds(at: int): int
      reads this
    {
      queueElapsed + (match queueStarted case None => 0 case Some(q) => Max0(at - q))
    }

    function ProviderSeconds(at: int): int
      reads this
    {
      providerWaitElapsed + (match providerWaitStarted case None => 0 case Some(w) => Max0(at - w))
    }

    function ReviewSeconds(at: int): int
      reads this
    {
      match reviewStarted
      case None => 0
      case Some(r) => Max0(at - r - Max0(QueueSeconds(at) - queueAtReviewStart))
    }

    /**
     * A reading no earlier than the latest call, as every reading of an execution that has not
     * finished is: it is an exact measure of the history, and no clamp to zero fires. A finished
     * execution is read at its end instead, which `AtEnd` is about.
     */
    lemma Exact(at: int)
      requires Valid() && last <= at
      ensures QueueSeconds(at) == Measure(queueLog, started, at)
      ensures ProviderSeconds(at) == Measure(waitLog, started, at)
      ensures reviewStarted.Some? ==> ReviewSeconds(at) == Idle(queueLog, reviewStarted.value, at)
      ensures queueStarted.Some? ==> at - queueStarted.value >= 0
      ensures providerWaitStarted.Some? ==> at - providerWaitStarted.value >= 0
      ensures reviewStarted.Some? ==>
                QueueSeconds(at) - queueAtReviewStart == Measure(queueLog, reviewStarted.value, at) >= 0
                && at - reviewStarted.value - (QueueSeconds(at) - queueAtReviewStart) >= 0
      ensures !Clamps(at)
    {
      Reading(queueLog, queueElapsed, queueStarted, started, last, at);
      Reading(waitLog, providerWaitElapsed, providerWaitStarted, started, last, at);
      if reviewStarted.Some? {
        MeasureSplit(queueLog, started, reviewStarted.value, at);
        MeasureAndIdle(queueLog, reviewStarted.value, at);
      }
    }

    /** The queue time reported at the end beyond what was queued by then: 0 until finished. */
    ghost function Overstay(): int
      reads this
    {
      if ended.None? then 0 else QueueSeconds(ended.value) - Measure(queueLog, started, ended.value)
    }

    lemma QueueAtEnd()
      requires Valid() && ended.Some?
      ensures Overstay() == Measure(queueLog, ended.value,
                                    if queueStarted.None? then last else Later(queueStarted.value, ended.value))
    {
      var e := ended.value;
      match queueStarted
      case None =>
        MeasureSplit(queueLog, started, e, last);
      case Some(q) =>
        if q <= e {
          MeasureSplit(queueLog, started, q, e);
          MeasureFull(queueLog, q, e);
          MeasureNone(queueLog, e, e);
        } else {
          MeasureSplit(queueLog, started, e, q);
        }
    }

    lemma WaitAtEnd()
      requires Valid() && ended.Some?
      ensures ProviderSeconds(ended.value)
              == Measure(waitLog, started, ended.value) + if waits == {} then Measure(waitLog, ended.value, last) else 0
    {
      var e := ended.value;
      OpenIffWaiting(waitLog, providerWaitElapsed, providerWaitStarted, started, last, waits);
      match providerWaitStarted
      case None =>
        MeasureSplit(waitLog, started, e, last);
      case Some(w) =>
        MeasureSplit(waitLog, started, w, e);
        MeasureFull(waitLog, w, e);
    }

    /** The subtraction of the queue time at the launch goes below zero exactly for a launch in an open stay after the end. */
    lemma ForegroundAtEnd()
      requires Valid() && ended.Some? && reviewStarted.Some?
      ensures QueueSeconds(ended.value) < queueAtReviewStart
              <==> queueStarted.Some? && Later(queueStarted.value, ended.value) < reviewStarted.value
    {
      var e, r := ended.value, reviewStarted.value;
      match queueStarted
      case None =>
        MeasureSplit(queueLog, started, r, last);
      case Some(q) =>
        if q <= e {
          MeasureSplit(queueLog, started, q, e);
          MeasureFull(queueLog, q, e);
        }
        LaunchedBy(Later(q, e));
    }

    lemma LaunchedBy(at: int)
      requires Valid() && reviewStarted.Some? && queueStarted.Some? && queueStarted.value <= at <= last
      ensures Measure(queueLog, started, at) < queueAtReviewStart <==> at < reviewStarted.value
    {
      var r := reviewStarted.value;
      if at < r {
        MeasureSplit(queueLog, started, at, r);
        MeasureFull(queueLog, at, r);
      } else {
        MeasureSplit(queueLog, started, r, at);
      }
    }

    /** Active review time at the end: the unqueued time from the launch to the end, less what stays overran. */
    lemma ReviewAtEnd()
      requires Valid() && ended.Some? && reviewStarted.Some?
      ensures Overstay() >= 0
      ensures ReviewSeconds(ended.value) == Max0(Idle(queueLog, reviewStarted.value, ended.value) - Overstay())
      ensures ended.value - reviewStarted.value - Max0(QueueSeconds(ended.value) - queueAtReviewStart) < 0
              <==> reviewStarted.value > ended.value
                   || Overstay() > Idle(queueLog, reviewStarted.value, ended.value)
    {
      var e, r := ended.value, reviewStarted.value;
      QueueAtEnd();
      if r <= e {
        ForegroundAtEnd();
        MeasureSplit(queueLog, started, r, e);
        MeasureAndIdle(queueLog, r, e);
      } else {
        assert (set t: int | r <= t < e && !Covered(queueLog, t)) == {};
      }
    }

    /** Some subtraction in a reading goes below zero and is clamped. */
    predicate Clamps(at: int)
      reads this
    {
      || (queueStarted.Some? && at - queueStarted.value < 0)
      || (providerWaitStarted.Some? && at - providerWaitStarted.value < 0)
      || (reviewStarted.Some? && at - reviewStarted.value < 0)
      || (reviewStarted.Some? && QueueSeconds(at) - queueAtReviewStart < 0)
      || (reviewStarted.Some? && at - reviewStarted.value - Max0(QueueSeconds(at) - queueAtReviewStart) < 0)
    }

    /**
     * What a finished execution reports. The queue time is off by what closed stays overran the
     * end, the wait time by the waits beyond it, and the active review time is short by the same
     * overrun, down to zero. A clamp fires exactly for a stay opened after the end, a first launch
     * after it, or an overrun longer than the active review time was.
     */
    lemma AtEnd()
      requires Valid() && ended.Some?
      ensures QueueSeconds(ended.value) == Measure(queueLog, started, ended.value) + Overstay() && Overstay() >= 0
      ensures ProviderSeconds(ended.value)
              == Measure(waitLog, started, ended.value) + if waits == {} then Measure(waitLog, ended.value, last) else 0
      ensures ReviewSeconds(ended.value) == if reviewStarted.None? then 0
                else Max0(Idle(queueLog, reviewStarted.value, ended.value) - Overstay())
      ensures Clamps(ended.value) <==>
              || (queueStarted.Some? && queueStarted.value > ended.value)
              || (reviewStarted.Some? && (reviewStarted.value > ended.value
                                          || Overstay() > Idle(queueLog, reviewStarted.value, ended.value)))
    {
      QueueAtEnd();
      WaitAtEnd();
      if reviewStarted.Some? {
        ForegroundAtEnd();
        ReviewAtEnd();
      }
    }

    /** While the execution is queued, active review time stands still. */
    lemma FreezesWhileQueued(a: int, b: int)
      requires Valid() && last <= a <= b && queueStarted.Some?
      ensures ReviewSeconds(a) == ReviewSeconds(b)
    {
      Exact(a);
      Exact(b);
    }

    /** The clock moves on; nothing else does. */
    ghost method Advance(now: int)
      requires Valid() && last <= now
      modifies this`last
      ensures Valid() && last == now
    {
      Reading(queueLog, queueElapsed, queueStarted, started, last, now);
      Reading(waitLog, providerWaitElapsed, providerWaitStarted, started, last, now);
      last := now;
    }

    // -------------------------------------------------------------- events

    method StartQueue(now: int)
      requires Valid() && last <= now
      modifies this`last, this`queueLog, this`queueStarted
      ensures Valid() && last == now
      ensures queueLog == if old(queueStarted).None? then old(queueLog) + [Span(now, now, true)] else old(queueLog)
      ensures queueStarted == if old(queueStarted).None? then Some(now) else old(queueStarted)
      // Whenever it is called, nothing reported at the end moves.
      ensures ended.Some? ==> QueueSeconds(ended.value) == old(QueueSeconds(ended.value))
                              && ReviewSeconds(ended.value) == old(ReviewSeconds(ended.value))
      ensures Overstay() == old(Overstay())
    {
      Advance(now);
      if queueStarted.None? {
        ghost var grown := queueLog + [Span(now, now, true)];
        MeterOpen(queueLog, queueElapsed, queueStarted, started, now);
        KeepBefore(grown);
        queueLog := grown;
        queueStarted := Some(now);
      }
    }

    /** What was measured at the launch, and what is measured at the end, stands. */
    lemma KeepBefore(b: seq<Span>)
      requires Valid()
      requires b == queueLog + [Span(last, last, true)]
               || (|queueLog| > 0 && queueLog[|queueLog| - 1].open
                   && b == queueLog[|queueLog| - 1 := Span(queueLog[|queueLog| - 1].from, last, false)])
      ensures reviewStarted.Some? ==> queueAtReviewStart == Measure(b, started, reviewStarted.value)
      ensures ended.Some? ==> Measure(b, started, ended.value) == Measure(queueLog, started, ended.value)
      ensures ended.Some? && reviewStarted.Some? ==>
                Idle(b, reviewStarted.value, ended.value) == Idle(queueLog, reviewStarted.value, ended.value)
    {
      if reviewStarted.Some? {
        SameBefore(queueLog, b, last, started, reviewStarted.value);
      }
      if ended.Some? {
        SameBefore(queueLog, b, last, started, ended.value);
      }
      if ended.Some? && reviewStarted.Some? {
        SameBefore(queueLog, b, last, reviewStarted.value, ended.value);
      }
    }

    /** Closing the stay banks it. */
    method CloseStay(now: int)
      requires Valid() && now == last && queueStarted.Some?
      modifies this`queueLog, this`queueStarted, this`queueElapsed
      ensures Valid() && queueStarted.None? && queueElapsed == old(queueElapsed) + (last - old(queueStarted).value)
      ensures queueLog
              == old(queueLog)[|old(queueLog)| - 1 := Span(old(queueLog)[|old(queueLog)| - 1].from, last, false)]
      ensures old(queueStarted).value <= last
      ensures ended.Some? ==> Measure(queueLog, started, ended.value) == old(Measure(queueLog, started, ended.value))
      ensures ended.Some? && reviewStarted.Some? ==>
        Idle(queueLog, reviewStarted.value, ended.value) == old(Idle(queueLog, reviewStarted.value, ended.value))
    {
      var k := |queueLog| - 1;
      assert AnyOpen(queueLog);
      assert queueLog[k].open;
      MeterClose(queueLog, k, queueElapsed, queueStarted, started, last);
      ghost var closed := queueLog[k := Span(queueLog[k].from, last, false)];
      KeepBefore(closed);
      assert !AnyOpen(closed);
      queueElapsed := queueElapsed + Max0(now - queueStarted.value);
      queueStarted := None;
      queueLog := closed;
    }

    /** What the overrun adds to the queue time reported at the end, it takes off the review time. */
    method LeaveStay(now: int)
      requires Valid() && now == last && queueStarted.Some?
      modifies this`queueLog, this`queueStarted, this`queueElapsed
      ensures Valid() && queueStarted.None? && queueElapsed == old(queueElapsed) + (last - old(queueStarted).value)
      ensures queueLog
              == old(queueLog)[|old(queueLog)| - 1 := Span(old(queueLog)[|old(queueLog)| - 1].from, last, false)]
      ensures old(queueStarted).value <= last
      ensures Overstay() == old(Overstay()) + Overrun(old(queueStarted), ended, now)
      ensures ended.Some? ==> ReviewSeconds(ended.value)
                              == Max0(old(ReviewSeconds(ended.value)) - Overrun(old(queueStarted), ended, now))
    {
      if ended.Some? && reviewStarted.Some? {
        ReviewAtEnd();
      }
      CloseStay(now);
      if ended.Some? && reviewStarted.Some? {
        ReviewAtEnd();
      }
    }

    method EndQueue(now: int)
      requires Valid() && last <= now
      modifies this`last, this`queueLog, this`queueStarted, this`queueElapsed
      ensures Valid() && last == now && queueStarted.None?
      ensures queueLog == if old(queueStarted).None? then old(queueLog)
                          else old(queueLog)[|old(queueLog)| - 1 := Span(old(queueLog)[|old(queueLog)| - 1].from, now, false)]
      ensures queueElapsed == old(queueElapsed) + Running(old(queueStarted), now)
      // Once finished, the reported queue time stays frozen exactly when no open stay outlives the finish.
      ensures ended.Some? ==>
        (QueueSeconds(ended.value) == old(QueueSeconds(ended.value))
         <==> old(queueStarted).None? || now <= ended.value || now <= old(queueStarted).value)
      // What the reported queue time gains, the reported review time loses, down to zero ...
      ensures Overstay() == old(Overstay()) + Overrun(old(queueStarted), ended, now)
      ensures ended.Some? ==> ReviewSeconds(ended.value)
                              == Max0(old(ReviewSeconds(ended.value)) - Overrun(old(queueStarted), ended, now))
      // ... so it stays frozen exactly then, or for a launch not before the end, or when there was none to lose.
      ensures ended.Some? ==>
        (ReviewSeconds(ended.value) == old(ReviewSeconds(ended.value))
         <==> old(queueStarted).None? || now <= ended.value || now <= old(queueStarted).value
              || reviewStarted.None? || ended.value <= reviewStarted.value || old(ReviewSeconds(ended.value)) == 0)
    {
      Advance(now);
      if queueStarted.Some? {
        LeaveStay(now);
      }
    }

    /** A wait may start while fewer than two are open; it is refused once the execution ended. */
    method StartProviderWait(now: int) returns (token: Option<nat>)
      requires Valid() && last <= now
      modifies this`last, this`waitLog, this`waits, this`nextWait, this`providerWaitStarted
      ensures Valid() && last == now
      ensures token.None? <==> ended.Some? || |old(waits)| >= 2
      ensures token.None? ==> waits == old(waits) && waitLog == old(waitLog)
      ensures token.Some? ==>
        token.value == |old(waitLog)| + 1 && waits == old(waits) + {token.value}
        && waitLog == old(waitLog) + [Span(now, now, true)]
    {
      Advance(now);
      if ended.Some? || |waits| >= 2 {
        return None;
      }
      OpenWait(now);
      token := Some(nextWait);
    }

    method OpenWait(now: int)
      requires Valid() && now == last && ended.None? && |waits| < 2
      modifies this`waitLog, this`waits, this`nextWait, this`providerWaitStarted
      ensures Valid() && nextWait == |old(waitLog)| + 1 && waits == old(waits) + {nextWait}
      ensures waitLog == old(waitLog) + [Span(last, last, true)]
    {
      WaitOpens(waitLog, providerWaitElapsed, providerWaitStarted, started, last, waits);
      if |waits| == 0 {
        providerWaitStarted := Some(now);
      }
      nextWait := nextWait + 1;
      waits := waits + {nextWait};
      waitLog := waitLog + [Span(last, last, true)];
    }

    /** End one wait; with no token given, the only open one. False is the refusal. */
    method EndProviderWait(token: Option<nat>, now: int) returns (ok: bool)
      requires Valid() && last <= now
      modifies this`last, this`waitLog, this`waits, this`providerWaitStarted, this`providerWaitElapsed
      ensures Valid() && last == now
      ensures ok <==> if token.Some? then token.value in old(waits) else |old(waits)| == 1
      ensures !ok ==> waits == old(waits) && waitLog == old(waitLog)
      ensures ok ==> exists n ::
        n in old(waits) && (token.Some? ==> n == token.value) && waits == old(waits) - {n} && 1 <= n <= |old(waitLog)|
        && waitLog == old(waitLog)[n - 1 := Span(old(waitLog)[n - 1].from, now, false)]
      // Once finished, the reported wait time stays frozen exactly when the last wait does not outlive the finish.
      ensures ended.Some? && ok ==>
        (ProviderSeconds(ended.value) == old(ProviderSeconds(ended.value))
         <==> |waits| > 0 || now <= ended.value)
    {
      Advance(now);
      var n := 0;
      if token.Some? {
        n := token.value;
      } else if |waits| == 1 {
        n :| n in waits;
      }
      if n !in waits {
        return false;
      }
      CloseWait(n, now);
      ok := true;
    }

    method CloseWait(n: nat, now: int)
      requires Valid() && now == last && n in waits
      modifies this`waitLog, this`waits, this`providerWaitStarted, this`providerWaitElapsed
      ensures Valid() && waits == old(waits) - {n} && 1 <= n <= |old(waitLog)|
      ensures waitLog == old(waitLog)[n - 1 := Span(old(waitLog)[n - 1].from, last, false)]
      ensures ended.Some? ==>
        (ProviderSeconds(ended.value) == old(ProviderSeconds(ended.value))
         <==> |waits| > 0 || last <= ended.value)
    {
      WaitCloses(waitLog, providerWaitElapsed, providerWaitStarted, started, last, waits, n);
      OpenIffWaiting(waitLog, providerWaitElapsed, providerWaitStarted, started, last, waits);
      waits := waits - {n};
      waitLog := waitLog[n - 1 := Span(waitLog[n - 1].from, last, false)];
      if |waits| == 0 && providerWaitStarted.Some? {
        providerWaitElapsed := providerWaitElapsed + Max0(now - providerWaitStarted.value);
        providerWaitStarted := None;
      }
    }

    /** The review clock starts at the first provider launch only. */
    method ProviderStarted(now: int)
      requires Valid() && last <= now
      modifies this`last, this`reviewStarted, this`queueAtReviewStart
      ensures Valid() && last == now
      ensures reviewStarted == if old(reviewStarted).Some? then old(reviewStarted) else Some(now)
      ensures queueAtReviewStart == if old(reviewStarted).Some? then old(queueAtReviewStart) else old(QueueSeconds(now))
      // A launch after the finish starts no review time.
      ensures ended.Some? ==> ReviewSeconds(ended.value) == old(ReviewSeconds(ended.value))
    {
      Advance(now);
      if reviewStarted.None? {
        Exact(now);
        reviewStarted := Some(now);
        queueAtReviewStart := QueueSeconds(now);
      }
    }

    /** The first finish fixes the end; what is reported then are the exact measures at that tick. */
    method Finish(now: int)
      requires Valid() && last <= now
      modifies this`last, this`ended
      ensures Valid() && last == now
      ensures ended == if old(ended).Some? then old(ended) else Some(now)
      ensures old(ended).None? ==>
        QueueSeconds(now) == Measure(queueLog, started, now) && ProviderSeconds(now) == Measure(waitLog, started, now)
        && (reviewStarted.Some? ==> ReviewSeconds(now) == Idle(queueLog, reviewStarted.value, now))
      ensures Overstay() == old(Overstay())
    {
      Advance(now);
      if ended.None? {
        ended := Some(now);
      }
      Exact(now);
    }

    // ------------------------------------------------------------- expiry

    /** The code a cancellation is attributed to. */
    function Attribution(upstream: Upstream): Reason
      requires !upstream.Raises?
      reads this`markedReason
    {
      var marked := if markedReason.Some? then markedReason.value else "";
      match upstream
      case Quiet => Cancelled(if marked != "" then marked else "cancelled_external")
      case Set(observed) =>
        if marked != "" && (observed.None? || observed.value == "unknown_cancel_token" || observed.value == "cancelled_external")
        then Cancelled(marked)
        else if observed.Some? && observed.value != "" then Cancelled(observed.value)
        else Cancelled("cancelled_external")
    }

    /** Which reason an undecided execution latches now, in terms of the measured history. */
    ghost function Verdict(upstream: Upstream, now: int): Option<Reason>
      reads this
    {
      if upstream.Raises? then Some(Unavailable)
      else if upstream.Set? || event then Some(Attribution(upstream))
      else if limits.total.Some? && now - started >= limits.total.value then Some(TotalExhausted)
      else if queueStarted.Some? && limits.queue.Some? && Measure(queueLog, started, now) >= limits.queue.value
      then Some(QueueExhausted)
      else if reviewStarted.Some? && limits.review.Some? && Idle(queueLog, reviewStarted.value, now) >= limits.review.value
      then Some(ReviewExhausted)
      else None
    }

    predicate Decided()
      reads this`ended, this`reason
    {
      ended.Some? || reason.Some?
    }

    /** The outcome of one poll: a reason is written once, and an ended execution is only touched by a failing poll. */
    ghost function Polled(upstream: Upstream, now: int): Option<Reason>
      reads this
    {
      if reason.Some? then reason
      else if ended.Some? && !upstream.Raises? then None
      else Verdict(upstream, now)
    }

    /**
     * The second critical section of `is_set`. Other handles may have finished or decided since
     * the first one; a failing poll then still writes its reason over an undecided end.
     */
    method Latch(upstream: Upstream, now: int)
      requires Valid() && last <= now
      modifies this`last, this`reason
      ensures Valid() && last == now
      ensures reason == old(Polled(upstream, now))
    {
      Exact(now);
      Advance(now);
      if upstream.Raises? {
        reason := if reason.Some? then reason else Some(Unavailable);
      } else if Decided() {
        return;
      } else if upstream.Set? {
        reason := Some(Attribution(upstream));
      } else if event {
        reason := Some(Attribution(upstream));
      } else if limits.total.Some? && now - started >= limits.total.value {
        reason := Some(TotalExhausted);
      } else if queueStarted.Some? && limits.queue.Some? && queueElapsed + now - queueStarted.value >= limits.queue.value {
        reason := Some(QueueExhausted);
      } else if reviewStarted.Some? && limits.review.Some? && ReviewSeconds(now) >= limits.review.value {
        reason := Some(ReviewExhausted);
      }
    }

    /** Any handle may set the shared event; it is never cleared. */
    method SetEvent(now: int)
      requires Valid() && last <= now
      modifies this`last, this`event
      ensures Valid() && last == now && event
    {
      Advance(now);
      event := true;
    }

    /** In-memory attribution only: it decides nothing, and the latest mark counts. */
    method Mark(code: Option<string>, now: int)
      requires Valid() && last <= now
      modifies this`last, this`markedReason
      ensures Valid() && last == now && markedReason == code
    {
      Advance(now);
      markedReason := code;
    }

    /** With no other handle between its two sections, a poll never decides an ended execution. */
    method IsSet(upstream: Upstream, now: int) returns (expired: bool)
      requires Valid() && last <= now
      modifies this`last, this`reason
      ensures Valid() && last == now && (expired <==> reason.Some?)
      ensures reason == if old(Decided()) then old(reason) else old(Verdict(upstream, now))
    {
      if Decided() {
        Advance(now);
        return reason.Some?;
      }
      Latch(upstream, now);
      expired := reason.Some?;
    }

    /** Leaving the queue decides expiry before the stay is closed, at one clock instant. */
    method LeaveQueue(upstream: Upstream, now: int)
      requires Valid() && last <= now
      modifies this`last, this`reason, this`queueLog, this`queueStarted, this`queueElapsed
      ensures Valid() && last == now && queueStarted.None?
      ensures reason == if old(Decided()) then old(reason) else old(Verdict(upstream, now))
      ensures !old(Decided()) && upstream.Quiet? && !old(event) && limits.queue.Some? && old(queueStarted).Some?
              && (limits.total.Some? ==> now - started < limits.total.value)
              && old(Measure(queueLog, started, now)) >= limits.queue.value
              ==> reason == Some(QueueExhausted)
    {
      var expired := IsSet(upstream, now);
      EndQueue(now);
    }

    /**
     * Any run of calls by any number of handles, at any nondecreasing clock: what is decided, ended or
     * launched stays so, and afterwards every reading at the present is still the exact measure of
     * the history, and what a finished execution reports is off by exactly the overruns of the run.
     */
    method Drive(script: seq<Call>, horizon: int)
      requires Valid() && InOrder(script, last, horizon)
      modifies this
      ensures Valid() && last <= horizon
      ensures old(reason).Some? ==> reason == old(reason)
      ensures old(ended).Some? ==> ended == old(ended)
      ensures old(reviewStarted).Some? ==> reviewStarted == old(reviewStarted)
      // A cancellation through any handle is heard by the next poll of any other.
      ensures Hears(script, old(event)) ==> Decided()
      ensures reviewStarted.Some? ==> ReviewSeconds(horizon) == Idle(queueLog, reviewStarted.value, horizon)
      ensures ProviderSeconds(horizon) == Measure(waitLog, started, horizon)
      ensures ended.Some? ==>
        var e, off := ended.value, old(Overstay()) + Overruns(script, old(queueStarted), old(ended));
        && QueueSeconds(e) == Measure(queueLog, started, e) + off
        && ReviewSeconds(e)
           == (if reviewStarted.None? then 0 else Max0(Idle(queueLog, reviewStarted.value, e) - off))
        && ProviderSeconds(e)
           == Measure(waitLog, started, e) + if waits == {} then Measure(waitLog, e, last) else 0
    {
      for i := 0 to |script|
        invariant Valid() && InOrder(script[i..], last, horizon)
        invariant old(reason).Some? ==> reason == old(reason)
        invariant old(ended).Some? ==> ended == old(ended)
        invariant old(reviewStarted).Some? ==> reviewStarted == old(reviewStarted)
        invariant Hears(script, old(event)) ==> Decided() || Hears(script[i..], event)
        invariant Overstay() + Overruns(script[i..], queueStarted, ended)
                  == old(Overstay()) + Overruns(script, old(queueStarted), old(ended))
      {
        assert script[i..][1..] == script[i + 1..];
        Perform(script[i]);
      }
      Exact(horizon);
      if ended.Some? {
        AtEnd();
      }
    }

    method QueueCall(c: Call)
      requires c.QueueIn? || c.QueueOut?
      requires Valid() && last <= c.now
      modifies this`last, this`queueLog, this`queueStarted, this`queueElapsed
      ensures Valid() && last == c.now && queueStarted == StayAfter(c, old(queueStarted))
      ensures Overstay() == old(Overstay()) + (if c.QueueOut? then Overrun(old(queueStarted), ended, c.now) else 0)
    {
      match c
      case QueueIn(now) => StartQueue(now);
      case QueueOut(now) => EndQueue(now);
    }

    method WaitCall(c: Call)
      requires c.WaitIn? || c.WaitOut?
      requires Valid() && last <= c.now
      modifies this`last, this`waitLog, this`waits, this`nextWait, this`providerWaitStarted, this`providerWaitElapsed
      ensures Valid() && last == c.now
    {
      match c
      case WaitIn(now) => var token := StartProviderWait(now);
      case WaitOut(now, token) => var ok := EndProviderWait(token, now);
    }

    method PollCall(c: Call)
      requires c.Poll? || c.LatePoll?
      requires Valid() && last <= c.now
      modifies this`last, this`reason
      ensures Valid() && last == c.now
      ensures old(reason).Some? ==> reason == old(reason)
      ensures c.Poll? && event ==> Decided()
    {
      match c
      case Poll(now, upstream) => var expired := IsSet(upstream, now);
      case LatePoll(now, upstream) => Latch(upstream, now);
    }

    method MarkCall(c: Call)
      requires c.Launch? || c.End? || c.Cancel? || c.Label?
      requires Valid() && last <= c.now
      modifies this`last, this`reviewStarted, this`queueAtReviewStart, this`ended, this`event, this`markedReason
      ensures Valid() && last == c.now
      ensures old(reviewStarted).Some? ==> reviewStarted == old(reviewStarted)
      ensures event == (old(event) || c.Cancel?)
      ensures ended == EndAfter(c, old(ended)) && Overstay() == old(Overstay())
    {
      match c
      case Launch(now) => ProviderStarted(now);
      case End(now) => Finish(now);
      case Cancel(now) => SetEvent(now);
      case Label(now, code) => Mark(code, now);
    }

    method Perform(c: Call)
      requires Valid() && last <= c.now
      modifies this
      ensures Valid() && last == c.now
      ensures old(reason).Some? ==> reason == old(reason)
      ensures old(reviewStarted).Some? ==> reviewStarted == old(reviewStarted)
      ensures event == (old(event) || c.Cancel?)
      ensures c.Poll? && event ==> Decided()
      ensures queueStarted == StayAfter(c, old(queueStarted)) && ended == EndAfter(c, old(ended))
      ensures Overstay() == old(Overstay()) + (if c.QueueOut? then Overrun(old(queueStarted), old(ended), c.now) else 0)
    {
      if c.QueueIn? || c.QueueOut? {
        QueueCall(c);
      } else if c.WaitIn? || c.WaitOut? {
        WaitCall(c);
      } else if c.Poll? || c.LatePoll? {
        PollCall(c);
      } else {
        MarkCall(c);
      }
    }
  }

  /** A call by some handle at a clock reading; `LatePoll` is a poll's second section on its own. */
  datatype Call =
    | QueueIn(now: int) | QueueOut(now: int) | WaitIn(now: int) | WaitOut(now: int, token: Option<nat>)
    | Launch(now: int) | Poll(now: int, upstream: Upstream) | LatePoll(now: int, upstream: Upstream) | End(now: int)
    | Cancel(now: int) | Label(now: int, code: Option<string>)

  /** By how much a stay closed now overran the end. */
  function Overrun(since: Option<int>, end: Option<int>, now: int): int
  {
    if since.Some? && end.Some? then now - Later(since.value, end.value) else 0
  }

  function StayAfter(c: Call, since: Option<int>): Option<int>
  {
    match c
    case QueueIn(now) => if since.None? then Some(now) else since
    case QueueOut(_) => None
    case _ => since
  }

  function EndAfter(c: Call, end: Option<int>): Option<int>
  {
    if c.End? && end.None? then Some(c.now) else end
  }

  /** The overruns of a whole script, given the open stay and the end it begins with. */
  function Overruns(script: seq<Call>, since: Option<int>, end: Option<int>): int
  {
    if script == [] then 0
    else (if script[0].QueueOut? then Overrun(since, end, script[0].now) else 0)
         + Overruns(script[1..], StayAfter(script[0], since), EndAfter(script[0], end))
  }

  /** A stay closed after the finish: the reported queue time grows and the reported review time is lost. */
  method LateQueueExit() returns (before: int, queue: int, foreground: int, after: int)
    ensures before == 1 && queue == 4
    ensures 3 - 1 - foreground == -2 && after == 0
  {
    var s := new BudgetState(Limits(None, None, 0, None), 0);
    s.ProviderStarted(1);
    s.StartQueue(2);
    s.Finish(3);
    before := s.ReviewSeconds(3);
    s.EndQueue(6);
    queue, after := s.QueueSeconds(3), s.ReviewSeconds(3);
    foreground := queue - s.queueAtReviewStart;
  }

  /** A stay and a first launch after the finish: what the other clamps are applied to is negative. */
  method LateEvents() returns (stay: int, wall: int, foreground: int)
    ensures stay == -2 && wall == -4 && foreground == -2
  {
    var s := new BudgetState(Limits(None, None, 0, None), 0);
    s.Finish(3);
    s.StartQueue(5);
    s.ProviderStarted(7);
    stay, wall := 3 - s.queueStarted.value, 3 - s.reviewStarted.value;
    foreground := s.QueueSeconds(3) - s.queueAtReviewStart;
  }

  /** A poll follows a cancellation. */
  predicate Hears(script: seq<Call>, armed: bool)
  {
    script != [] &&
    ((script[0].Poll? && armed) || Hears(script[1..], armed || script[0].Cancel?))
  }

  predicate InOrder(script: seq<Call>, from: int, horizon: int)
  {
    if script == [] then from <= horizon
    else from <= script[0].now && InOrder(script[1..], script[0].now, horizon)
  }

  // ------------------------------------------------- one pass's wait allowance

  /** One pass's cumulative admission allowance across its fallbacks. */
  class ProviderAllowance {
    const seconds: int
    var spent: int
    var since: Option<int>
    ghost const born: int
    ghost var last: int
    ghost var log: seq<Span>

    ghost predicate Valid()
      reads this
    {
      seconds >= 0 && Metered(log, spent, since, born, last)
    }

    constructor (seconds: int, now: int)
      ensures Valid() && this.seconds == Max0(seconds) && log == [] && born == last == now && since.None?
    {
      this.seconds := Max0(seconds);
      spent, since, born, last, log := 0, None, now, now, [];
      new;
      MeasureNone([], born, last);
    }

    /** What is left is the allowance minus the exact measure of all waiting so far. */
    method Remaining(now: int) returns (left: int)
      requires Valid() && last <= now
      ensures left == Max0(seconds - Measure(log, born, now))
    {
      Reading(log, spent, since, born, last, now);
      var active := match since case None => 0 case Some(w) => Max0(now - w);
      left := Max0(seconds - spent - active);
    }

    method Begin(now: int)
      requires Valid() && last <= now && since.None?
      modifies this
      ensures Valid() && last == now && since == Some(now) && spent == old(spent)
      ensures log == old(log) + [Span(now, now, true)]
    {
      Reading(log, spent, since, born, last, now);
      MeterOpen(log, spent, since, born, now);
      last, since := now, Some(now);
      log := log + [Span(now, now, true)];
    }

    /** Ending a wait spends exactly its length. */
    method End(now: int)
      requires Valid() && last <= now && since.Some? && |log| > 0
      requires log[|log| - 1].open && forall k :: 0 <= k < |log| - 1 ==> !log[k].open
      modifies this
      ensures Valid() && last == now && since.None?
      ensures spent == old(spent) + (now - old(since).value) == Measure(log, born, now)
      ensures log == old(log)[|old(log)| - 1 := Span(old(log)[|old(log)| - 1].from, now, false)]
    {
      Reading(log, spent, since, born, last, now);
      MeterClose(log, |log| - 1, spent, since, born, now);
      ghost var closed := log[|log| - 1 := Span(log[|log| - 1].from, now, false)];
      assert !AnyOpen(closed);
      spent := spent + Max0(now - since.value);
      since, last, log := None, now, closed;
    }
  }
}
