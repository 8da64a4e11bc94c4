/** Time as clock ticks: spans, and the exact measure of the ticks they cover. */
module Ticks {

  /** From a start tick until an end tick; while open it has no end yet. */
  datatype Span = Span(from: int, upto: int, open: bool)

  predicate Covers(s: Span, t: int)
  {
    s.from <= t && (s.open || t < s.upto)
  }

  ghost predicate Covered(log: seq<Span>, t: int)
  {
    exists k :: 0 <= k < |log| && Covers(log[k], t)
  }

  /** The covered ticks of [lo, hi). Its size is the measure of the union of the spans. */
  ghost function Measure(log: seq<Span>, lo: int, hi: int): nat
  {
    |set t: int | lo <= t < hi && Covered(log, t)|
  }

  /** The uncovered ticks of [lo, hi). */
  ghost function Idle(log: seq<Span>, lo: int, hi: int): nat
  {
    |set t: int | lo <= t < hi && !Covered(log, t)|
  }

  predicate Within(lo: int, t: int, hi: int)
  {
    lo <= t < hi
  }

  ghost function Range(lo: int, hi: int): set<int>
  {
    set t: int | lo <= t < hi && Within(lo, t, hi)
  }

  lemma {:induction false} RangeSize(lo: int, hi: int)
    requires lo <= hi
    ensures |Range(lo, hi)| == hi - lo
    decreases hi - lo
  {
    if lo < hi {
      RangeSize(lo, hi - 1);
      assert Range(lo, hi) == Range(lo, hi - 1) + {hi - 1};
    } else {
      assert Range(lo, hi) == {};
    }
  }

  lemma MeasureAndIdle(log: seq<Span>, lo: int, hi: int)
    requires lo <= hi
    ensures Measure(log, lo, hi) + Idle(log, lo, hi) == hi - lo
  {
    RangeSize(lo, hi);
    var a := set t: int | lo <= t < hi && Covered(log, t);
    var b := set t: int | lo <= t < hi && !Covered(log, t);
    assert Range(lo, hi) == a + b;
    assert a !! b;
  }

  lemma MeasureSplit(log: seq<Span>, lo: int, mid: int, hi: int)
    requires lo <= mid <= hi
    ensures Measure(log, lo, hi) == Measure(log, lo, mid) + Measure(log, mid, hi)
  {
    var a := set t: int | lo <= t < mid && Covered(log, t);
    var b := set t: int | mid <= t < hi && Covered(log, t);
    assert (set t: int | lo <= t < hi && Covered(log, t)) == a + b;
    assert a !! b;
  }

  lemma MeasureFull(log: seq<Span>, lo: int, hi: int)
    requires lo <= hi
    requires forall t :: lo <= t < hi ==> Covered(log, t)
    ensures Measure(log, lo, hi) == hi - lo
  {
    MeasureAndIdle(log, lo, hi);
    assert (set t: int | lo <= t < hi && !Covered(log, t)) == {};
  }

  lemma MeasureNone(log: seq<Span>, lo: int, hi: int)
    requires forall t :: lo <= t < hi ==> !Covered(log, t)
    ensures Measure(log, lo, hi) == 0
  {
    assert (set t: int | lo <= t < hi && Covered(log, t)) == {};
  }

  /** Two logs that cover the same ticks of [lo, hi) have the same measure there. */
  lemma MeasureSame(a: seq<Span>, b: seq<Span>, lo: int, hi: int)
    requires forall t :: lo <= t < hi ==> (Covered(a, t) <==> Covered(b, t))
    ensures Measure(a, lo, hi) == Measure(b, lo, hi) && Idle(a, lo, hi) == Idle(b, lo, hi)
  {
    assert (set t: int | lo <= t < hi && Covered(a, t)) == (set t: int | lo <= t < hi && Covered(b, t));
    assert (set t: int | lo <= t < hi && !Covered(a, t)) == (set t: int | lo <= t < hi && !Covered(b, t));
  }

  // --------------------------------------------------------------- the meter

  datatype Option<T> = None | Some(value: T)

  /** No span reaches beyond `last`. */
  ghost predicate Past(log: seq<Span>, last: int)
  {
    forall k :: 0 <= k < |log| ==> log[k].from <= last && (!log[k].open ==> log[k].from <= log[k].upto <= last)
  }

  ghost predicate AnyOpen(log: seq<Span>)
  {
    exists k :: 0 <= k < |log| && log[k].open
  }

  /**
   * A stopwatch over spans: the ticks closed so far, and since when at least one span has
   * been open without a gap.
   */
  ghost predicate Metered(log: seq<Span>, elapsed: int, since: Option<int>, lo: int, last: int)
  {
    && Past(log, last)
    && (since.Some? <==> AnyOpen(log))
    && match since
       case None => lo <= last && elapsed == Measure(log, lo, last)
       case Some(w) => lo <= w <= last && elapsed == Measure(log, lo, w) && forall t :: w <= t < last ==> Covered(log, t)
  }

  function Running(since: Option<int>, at: int): int
  {
    match since case None => 0 case Some(w) => at - w
  }

  /** The meter's reading is the measure of the union, and its running part is never negative. */
  lemma Reading(log: seq<Span>, elapsed: int, since: Option<int>, lo: int, last: int, at: int)
    requires Metered(log, elapsed, since, lo, last) && last <= at
    ensures elapsed + Running(since, at) == Measure(log, lo, at)
    ensures Running(since, at) >= 0
    ensures Metered(log, elapsed, since, lo, at)
  {
    match since
    case None =>
      MeasureSplit(log, lo, last, at);
      MeasureNone(log, last, at);
    case Some(w) =>
      var k :| 0 <= k < |log| && log[k].open;
      assert forall t :: last <= t ==> Covers(log[k], t);
      MeasureSplit(log, lo, w, at);
      MeasureFull(log, w, at);
  }

  lemma OpenCovers(log: seq<Span>, now: int, t: int)
    ensures Covered(log + [Span(now, now, true)], t) <==> Covered(log, t) || now <= t
  {
    var log' := log + [Span(now, now, true)];
    assert forall k :: 0 <= k < |log| ==> log'[k] == log[k];
    assert log'[|log|] == Span(now, now, true);
  }

  /** Opening a span: the stopwatch starts only when nothing was open. */
  lemma MeterOpen(log: seq<Span>, elapsed: int, since: Option<int>, lo: int, now: int)
    requires Metered(log, elapsed, since, lo, now)
    ensures Metered(log + [Span(now, now, true)], elapsed, if since.None? then Some(now) else since, lo, now)
  {
    var log' := log + [Span(now, now, true)];
    assert log'[|log|].open;
    forall t
      ensures Covered(log', t) <==> Covered(log, t) || now <= t
    {
      OpenCovers(log, now, t);
    }
    MeasureSame(log, log', lo, if since.None? then now else since.value);
    assert forall k :: 0 <= k < |log| ==> log'[k] == log[k];
  }

  lemma CloseCovers(log: seq<Span>, k: nat, now: int, t: int)
    requires k < |log| && log[k].open && t < now
    ensures Covered(log[k := Span(log[k].from, now, false)], t) <==> Covered(log, t)
  {
    var log' := log[k := Span(log[k].from, now, false)];
    assert Covers(log'[k], t) <==> Covers(log[k], t);
    assert forall j :: 0 <= j < |log| && j != k ==> log'[j] == log[j];
    if Covered(log, t) {
      var j :| 0 <= j < |log| && Covers(log[j], t);
      assert Covers(log'[j], t);
    }
    if Covered(log', t) {
      var j :| 0 <= j < |log| && Covers(log'[j], t);
      assert Covers(log[j], t);
    }
  }

  /** Closing a span: the stopwatch stops, and banks its run, only when nothing stays open. */
  lemma MeterClose(log: seq<Span>, k: nat, elapsed: int, since: Option<int>, lo: int, now: int)
    requires Metered(log, elapsed, since, lo, now)
    requires k < |log| && log[k].open
    ensures var log' := log[k := Span(log[k].from, now, false)];
            since.Some? &&
            if AnyOpen(log') then Metered(log', elapsed, since, lo, now)
            else Metered(log', elapsed + (now - since.value), None, lo, now)
  {
    var log' := log[k := Span(log[k].from, now, false)];
    assert AnyOpen(log);
    forall t | t < now
      ensures Covered(log', t) <==> Covered(log, t)
    {
      CloseCovers(log, k, now, t);
    }
    Reading(log, elapsed, since, lo, now, now);
    MeasureSame(log, log', lo, now);
    MeasureSame(log, log', lo, since.value);
  }
}
