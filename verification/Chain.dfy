/** The chain executor: entry by entry, retry by retry, whatever the attempts return. */
module Chain {
  import opened Ticks
  import Admission
  import AdmissionLaws
  import Budgets
  import Capacity

  datatype Retries = Retries(timeout: nat, degraded: nat)

  function MaxLaunches(d: Retries): nat { 1 + d.timeout + d.degraded }

  datatype Kind = Healthy | Degraded | Unavailable

  datatype Parsed = Parsed(ok: bool, degraded: bool)

  datatype Preflight = Fits | TooLarge | Invalid

  datatype Slot = Granted | Contended | Interrupted

  /** What the checks before one entry's first launch find. */
  datatype Probe = Probe(cancelled: bool, cached: bool, absent: bool, spent: bool, prompt: Preflight, slot: Slot)

  /** What one attempt does. `Escapes` is any exception that leaves the chain. */
  datatype Answer =
    | Unbuilt(invalid: bool)
    | SpawnUnavailable
    | Escapes(time: nat)
    | Finished(time: nat, strays: bool, timedOut: bool, spoke: bool, kind: Kind, parsed: Parsed)

  /** The adversary: what entry i meets, and what the n-th attempt of the whole chain does. */
  datatype World = World(probe: nat -> Probe, answer: nat -> Answer)

  function Took(a: Answer): nat
  {
    match a case Escapes(t) => t case Finished(t, _, _, _, _, _) => t case _ => 0
  }

  /** No launch outlives `cap`. */
  ghost predicate Capped(w: World, cap: nat)
  {
    forall n: nat :: Took(w.answer(n)) <= cap
  }

  // ------------------------------------------------------------- attempt rows

  /**
   * What a row says. The first four are written before any launch: skipped, an invocation that is
   * invalid for every provider, no slot within the allowance, or a build or spawn this provider refused.
   */
  datatype Fate =
    | Skipped | Rejected | NoSlot | Unstarted
    | Unbuildable | Strays | TimedOut(spoke: bool) | Served(kind: Kind)

  datatype Row = Row(n: nat, entry: nat, fate: Fate)

  predicate Launched(f: Fate)
  {
    f.Strays? || f.TimedOut? || f.Served?
  }

  /** Evidence that this provider could not serve. */
  predicate CouldNotServe(f: Fate)
  {
    f.Skipped? || f.NoSlot? || f.Unstarted? || f == TimedOut(false) || f == Served(Unavailable)
  }

  /** The checks before admission turn this entry away. */
  predicate Blocked(p: Probe)
  {
    p.cached || p.absent || p.spent || p.prompt.TooLarge?
  }

  /** The entry gets as far as its first attempt. */
  predicate Opens(p: Probe)
  {
    !p.cancelled && !Blocked(p) && p.prompt.Fits? && p.slot.Granted?
  }

  /** A row reports what really happened to its entry, or in its attempt. */
  predicate Truthful(w: World, r: Row)
  {
    var p := w.probe(r.entry);
    match r.fate
    case Skipped => !p.cancelled && Blocked(p)
    case Rejected => !p.cancelled && !Blocked(p) && p.prompt.Invalid?
    case NoSlot => !p.cancelled && !Blocked(p) && p.prompt.Fits? && p.slot.Contended?
    case Unstarted => Opens(p) && (w.answer(r.n) == Unbuilt(false) || w.answer(r.n) == SpawnUnavailable)
    case Unbuildable => Opens(p) && w.answer(r.n) == Unbuilt(true)
    case _ => Opens(p) && w.answer(r.n).Finished? && r.fate == FateOf(w.answer(r.n))
  }

  function FateOf(a: Answer): Fate
    requires a.Finished?
  {
    if a.strays then Strays else if a.timedOut then TimedOut(a.spoke) else Served(a.kind)
  }

  /** Output is believed only after the health verdict, and truncation seen by either axis counts. */
  predicate AnsweredBadly(w: World, r: Row)
  {
    && r.fate.Served? && r.fate.kind != Unavailable
    && w.answer(r.n).Finished? && (r.fate.kind == Degraded || w.answer(r.n).parsed.degraded)
  }

  datatype Which = Every | Timeouts | Bad

  predicate Picks(w: World, which: Which, e: nat, r: Row)
  {
    r.entry == e &&
    match which
    case Every => true
    case Timeouts => r.fate == TimedOut(true)
    case Bad => AnsweredBadly(w, r)
  }

  function Count(w: World, which: Which, e: nat, rows: seq<Row>): nat
  {
    if rows == [] then 0
    else Count(w, which, e, rows[..|rows| - 1]) + if Picks(w, which, e, rows[|rows| - 1]) then 1 else 0
  }

  /** The last row earns its entry another fresh session: output before a timeout, or a degraded answer, within its budget. */
  predicate RetryDue(w: World, d: Retries, rows: seq<Row>)
    requires rows != []
  {
    var a := rows[|rows| - 1];
    || (a.fate == TimedOut(true) && Count(w, Timeouts, a.entry, rows) <= d.timeout)
    || (AnsweredBadly(w, a) && Count(w, Bad, a.entry, rows) <= d.degraded)
  }

  /** May a row of entry i come next? The same entry again only to retry, the next one only past a provider that could not serve. */
  predicate MayFollow(w: World, d: Retries, rows: seq<Row>, i: nat)
  {
    if rows == [] then i == 0
    else
      var a := rows[|rows| - 1];
      if a.entry == i then RetryDue(w, d, rows) else a.entry + 1 == i && CouldNotServe(a.fate)
  }

  /** A history of attempts that respects the order of the chain and the budgets of each entry. */
  predicate History(w: World, d: Retries, rows: seq<Row>)
  {
    rows == [] ||
    var k := |rows| - 1;
    && History(w, d, rows[..k])
    && MayFollow(w, d, rows[..k], rows[k].entry)
    && rows[k].n == k + 1
    && Truthful(w, rows[k])
  }

  lemma Extend(w: World, d: Retries, rows: seq<Row>, r: Row)
    ensures History(w, d, rows) && MayFollow(w, d, rows, r.entry) && r.n == |rows| + 1 && Truthful(w, r)
            ==> History(w, d, rows + [r])
  {
    assert (rows + [r])[..|rows|] == rows;
  }

  lemma CountMore(w: World, which: Which, e: nat, rows: seq<Row>, r: Row)
    ensures Count(w, which, e, rows + [r]) == Count(w, which, e, rows) + if Picks(w, which, e, r) then 1 else 0
  {
    assert (rows + [r])[..|rows|] == rows;
  }

  lemma {:induction false} NoneYet(w: World, which: Which, e: nat, rows: seq<Row>)
    requires forall r :: r in rows ==> r.entry < e
    ensures Count(w, which, e, rows) == 0
  {
    if rows != [] {
      NoneYet(w, which, e, rows[..|rows| - 1]);
    }
  }

  // -------------------------------------------------------------- the outcome

  /** An exception leaves after these rows; otherwise the rows are returned with what was parsed and accepted. */
  datatype Outcome =
    | Raised(rows: seq<Row>)
    | Returned(rows: seq<Row>, parsed: Option<Parsed>, accepted: Option<nat>)

  /** Why a chain of `width` entries may stop after these rows without an answer. */
  predicate StopsEmpty(w: World, d: Retries, width: nat, rows: seq<Row>)
  {
    |rows| > 0 &&
    var r := rows[|rows| - 1];
    || r.fate.Rejected?
    || r.fate.Unbuildable?
    || r.fate.Strays?
    || (r.fate == TimedOut(true) && Count(w, Timeouts, r.entry, rows) > d.timeout)
    || (CouldNotServe(r.fate) && r.entry + 1 == width)
  }

  /** The only way an answer comes out: from the last row, with every truncation on record, and no retry left unspent. */
  predicate StopsWith(w: World, d: Retries, rows: seq<Row>, p: Parsed)
  {
    |rows| > 0 &&
    var r := rows[|rows| - 1];
    && r.fate.Served? && r.fate.kind != Unavailable && w.answer(r.n).Finished?
    && p.ok == w.answer(r.n).parsed.ok
    && (p.degraded <==> AnsweredBadly(w, r))
    && (p.degraded ==> Count(w, Bad, r.entry, rows) > d.degraded)
  }

  /** The entry the next row would belong to. */
  function NextEntry(rows: seq<Row>): nat
  {
    if rows == [] then 0
    else if CouldNotServe(rows[|rows| - 1].fate) then rows[|rows| - 1].entry + 1
    else rows[|rows| - 1].entry
  }

  /** The only way an exception comes out: at the boundary of an entry, while waiting for its slot, or out of an attempt. */
  predicate Raises(w: World, d: Retries, width: nat, rows: seq<Row>)
  {
    var e := NextEntry(rows);
    var p := w.probe(e);
    && e < width && MayFollow(w, d, rows, e)
    && if Opens(p) then w.answer(|rows| + 1).Escapes?
       else (rows == [] || rows[|rows| - 1].entry < e)
            && (p.cancelled || (!Blocked(p) && p.prompt.Fits? && p.slot.Interrupted?))
  }

  predicate Within(rows: seq<Row>, width: nat)
  {
    forall r :: r in rows ==> r.entry < width
  }

  /** Everything that is promised of an outcome. */
  ghost predicate Sound(w: World, d: Retries, width: nat, o: Outcome)
  {
    && History(w, d, o.rows) && Within(o.rows, width)
    && (forall e: nat :: Count(w, Every, e, o.rows) <= MaxLaunches(d))
    && match o
       case Raised(rows) => Raises(w, d, width, rows)
       case Returned(rows, parsed, accepted) =>
         && (if parsed.Some? then StopsWith(w, d, rows, parsed.value) else StopsEmpty(w, d, width, rows))
         && accepted == if parsed.Some? && parsed.value.ok then Some(rows[|rows| - 1].entry) else None
  }

  // ------------------------------------------------------------- the executor

  /** The time the launches of these rows took. */
  function Time(w: World, rows: seq<Row>): nat
  {
    if rows == [] then 0
    else
      var r := rows[|rows| - 1];
      Time(w, rows[..|rows| - 1]) + if Launched(r.fate) then Took(w.answer(r.n)) else 0
  }

  /** The time a launch took that left with an exception and no row. */
  function Lost(w: World, rows: seq<Row>): nat
  {
    if Opens(w.probe(NextEntry(rows))) then Took(w.answer(|rows| + 1)) else 0
  }

  /** All the time an outcome spent in launches. */
  function Elapsed(w: World, o: Outcome): nat
  {
    Time(w, o.rows) + if o.Raised? then Lost(w, o.rows) else 0
  }

  /** How one entry ends: on to the next, a verdict, or an exception. */
  datatype Step = Advance | Stop(parsed: Option<Parsed>) | Throw

  /** Counters of the retry loop, against the rows they stand for. */
  predicate Tally(w: World, d: Retries, i: nat, rows: seq<Row>, timeouts: nat, bad: nat)
  {
    && timeouts <= d.timeout && bad <= d.degraded
    && Count(w, Timeouts, i, rows) == timeouts
    && Count(w, Bad, i, rows) == bad
    && Count(w, Every, i, rows) == timeouts + bad
  }

  /** The last row of an entry, and what the entry makes of it. */
  predicate EndsEntry(w: World, d: Retries, i: nat, width: nat, rows: seq<Row>, step: Step)
  {
    match step
    case Advance => |rows| > 0 && rows[|rows| - 1].entry == i && CouldNotServe(rows[|rows| - 1].fate)
    case Stop(parsed) => if parsed.Some? then StopsWith(w, d, rows, parsed.value) else StopsEmpty(w, d, width, rows)
    case Throw => Raises(w, d, width, rows)
  }

  /** Other entries' rows are untouched by rows of entry i. */
  predicate Adds(i: nat, before: seq<Row>, after: seq<Row>)
  {
    && |before| <= |after| && after[..|before|] == before
    && forall k :: |before| <= k < |after| ==> after[k].entry == i
  }

  /** How one attempt ends: once more in a fresh session, or the entry is settled. */
  datatype Next = Again(timeouts: nat, bad: nat) | Settled(step: Step)

  /** What every attempt leaves behind: one more row unless it threw, and counters that match the rows. */
  predicate Attempted(w: World, d: Retries, i: nat, width: nat, before: seq<Row>, rows: seq<Row>, next: Next)
  {
    && History(w, d, rows)
    && Count(w, Every, i, rows) <= MaxLaunches(d)
    && (if next == Settled(Throw) then rows == before
        else |rows| == |before| + 1 && rows[..|before|] == before && rows[|before|].entry == i)
    && match next
       case Again(t, b) => MayFollow(w, d, rows, i) && Tally(w, d, i, rows, t, b)
       case Settled(step) => EndsEntry(w, d, i, width, rows, step)
  }

  /** The row of this attempt warrants ending it this way. */
  predicate Warrants(w: World, d: Retries, width: nat, timeouts: nat, bad: nat, r: Row, next: Next)
  {
    Truthful(w, r) &&
    match next
    case Again(t, b) =>
      || (r.fate == TimedOut(true) && t == timeouts + 1 <= d.timeout && b == bad)
      || (AnsweredBadly(w, r) && t == timeouts && b == bad + 1 <= d.degraded)
    case Settled(Throw) => false
    case Settled(Advance) => CouldNotServe(r.fate)
    case Settled(Stop(None)) =>
      || r.fate.Unbuildable? || r.fate.Strays?
      || (r.fate == TimedOut(true) && timeouts == d.timeout)
      || (CouldNotServe(r.fate) && r.entry + 1 == width)
    case Settled(Stop(Some(p))) =>
      && r.fate.Served? && r.fate.kind != Unavailable && w.answer(r.n).Finished?
      && p.ok == w.answer(r.n).parsed.ok && (p.degraded <==> AnsweredBadly(w, r))
      && (p.degraded ==> bad == d.degraded)
  }

  /** A warranted row extends the history and moves exactly the counters it stands for. */
  lemma RowSound(w: World, d: Retries, i: nat, width: nat, before: seq<Row>, timeouts: nat, bad: nat, rows: seq<Row>, next: Next)
    requires History(w, d, before) && MayFollow(w, d, before, i) && Tally(w, d, i, before, timeouts, bad)
    requires |rows| == |before| + 1 && rows[..|before|] == before
    requires var r := rows[|before|]; r.entry == i < width && r.n == |rows| && Warrants(w, d, width, timeouts, bad, r, next)
    ensures Attempted(w, d, i, width, before, rows, next)
  {
  }

  function OneRow(before: seq<Row>, r: Row): (rows: seq<Row>)
    ensures |rows| == |before| + 1 && rows[..|before|] == before && rows[|before|] == r
  {
    before + [r]
  }

  /** One pass through the retry loop, run while the provider slot is held. */
  method Attempt(w: World, d: Retries, i: nat, width: nat, before: seq<Row>, timeouts: nat, bad: nat)
    returns (next: Next, rows: seq<Row>)
    requires i < width && Opens(w.probe(i)) && NextEntry(before) == i
    requires History(w, d, before) && MayFollow(w, d, before, i) && Tally(w, d, i, before, timeouts, bad)
    ensures Attempted(w, d, i, width, before, rows, next)
    ensures next.Again? ==> next.timeouts + next.bad == timeouts + bad + 1
  {
    var n := |before| + 1;
    if w.answer(n).Escapes? {
      return Settled(Throw), before;
    }
    var fate;
    fate, next := Run(w, d, i, width, n, timeouts, bad);
    rows := OneRow(before, Row(n, i, fate));
    RowSound(w, d, i, width, before, timeouts, bad, rows, next);
  }

  method Run(w: World, d: Retries, i: nat, width: nat, n: nat, timeouts: nat, bad: nat) returns (fate: Fate, next: Next)
    requires i < width && Opens(w.probe(i)) && !w.answer(n).Escapes? && timeouts <= d.timeout && bad <= d.degraded
    ensures Warrants(w, d, width, timeouts, bad, Row(n, i, fate), next)
    ensures next.Again? ==> next.timeouts + next.bad == timeouts + bad + 1
  {
    match w.answer(n)
    case Unbuilt(invalid) =>
      if invalid {
        return Unbuildable, Settled(Stop(None));
      }
      return Unstarted, Settled(Advance);
    case SpawnUnavailable =>
      return Unstarted, Settled(Advance);
    case Finished(_, strays, timedOut, spoke, kind, answer) =>
      if strays {
        return Strays, Settled(Stop(None));
      }
      if timedOut {
        // Never parsed, never classified.
        fate := TimedOut(spoke);
        if !spoke {
          return fate, Settled(if i + 1 < width then Advance else Stop(None));
        }
        if timeouts < d.timeout {
          return fate, Again(timeouts + 1, bad);
        }
        return fate, Settled(Stop(None));
      }
      fate := Served(kind);
      if kind == Unavailable {
        return fate, Settled(Advance);
      }
      var parsed := answer;
      if kind == Degraded && !parsed.degraded {
        parsed := parsed.(degraded := true);
      }
      if parsed.degraded && bad < d.degraded {
        return fate, Again(timeouts, bad + 1);
      }
      next := Settled(Stop(Some(parsed)));
  }

  /** One turn of the retry loop, and the time it took. */
  method Turn(w: World, d: Retries, i: nat, width: nat, ghost rows0: seq<Row>, rows: seq<Row>, timeouts: nat, bad: nat, now: int)
    returns (next: Next, rows': seq<Row>, now': int)
    requires i < width && Opens(w.probe(i)) && Retrying(w, d, i, rows0, rows, timeouts, bad)
    ensures next.Again? ==> next.timeouts + next.bad == timeouts + bad + 1
                            && Retrying(w, d, i, rows0, rows', next.timeouts, next.bad)
                            && now' - now == Time(w, rows') - Time(w, rows)
    ensures next.Settled? ==> Settles(w, d, i, width, rows0, rows', next.step)
                              && now' - now == Spent(w, rows', next.step) - Time(w, rows)
    ensures now <= now'
  {
    now' := now + Took(w.answer(|rows| + 1));
    next, rows' := Attempt(w, d, i, width, rows, timeouts, bad);
    GoesOn(w, d, i, width, rows0, rows, rows', timeouts, bad, next);
    TookIsTime(w, d, i, width, rows, rows', next);
  }

  /** Launches so far, and one more if it left with an exception. */
  function Spent(w: World, rows: seq<Row>, step: Step): nat
  {
    Time(w, rows) + if step.Throw? then Took(w.answer(|rows| + 1)) else 0
  }

  lemma TookIsTime(w: World, d: Retries, i: nat, width: nat, before: seq<Row>, rows: seq<Row>, next: Next)
    requires Attempted(w, d, i, width, before, rows, next) && Opens(w.probe(i))
    ensures next != Settled(Throw) ==> Time(w, rows) == Time(w, before) + Took(w.answer(|before| + 1))
  {
    if next != Settled(Throw) {
      assert rows[..|rows| - 1] == before && Truthful(w, rows[|before|]) && rows[|before|].n == |before| + 1;
    }
  }

  /** What the loop leaves behind. */
  predicate Settles(w: World, d: Retries, i: nat, width: nat, rows0: seq<Row>, rows: seq<Row>, step: Step)
  {
    && Adds(i, rows0, rows) && (if step.Throw? then NextEntry(rows) == i else |rows| > |rows0|)
    && History(w, d, rows) && EndsEntry(w, d, i, width, rows, step)
    && Count(w, Every, i, rows) <= MaxLaunches(d)
  }

  /** The retry loop of one entry. */
  method Attempts(w: World, d: Retries, i: nat, width: nat, rows0: seq<Row>, now0: int)
    returns (step: Step, rows: seq<Row>, now: int)
    requires i < width && Opens(w.probe(i)) && NextEntry(rows0) == i
    requires History(w, d, rows0) && MayFollow(w, d, rows0, i) && (forall r :: r in rows0 ==> r.entry < i)
    ensures Settles(w, d, i, width, rows0, rows, step)
    ensures now - now0 == Spent(w, rows, step) - Time(w, rows0) >= 0
  {
    var timeoutsUsed, degradedUsed := 0, 0;
    rows, now := rows0, now0;
    NothingTried(w, d, i, rows0);
    while true
      invariant Retrying(w, d, i, rows0, rows, timeoutsUsed, degradedUsed)
      invariant now - now0 == Time(w, rows) - Time(w, rows0) >= 0
      decreases d.timeout + d.degraded - timeoutsUsed - degradedUsed
    {
      var next;
      next, rows, now := Turn(w, d, i, width, rows0, rows, timeoutsUsed, degradedUsed, now);
      if next.Settled? {
        return next.step, rows, now;
      }
      timeoutsUsed, degradedUsed := next.timeouts, next.bad;
    }
  }

  /** The retry loop's state. */
  predicate Retrying(w: World, d: Retries, i: nat, rows0: seq<Row>, rows: seq<Row>, timeouts: nat, bad: nat)
  {
    && History(w, d, rows) && MayFollow(w, d, rows, i) && Adds(i, rows0, rows) && NextEntry(rows) == i
    && Tally(w, d, i, rows, timeouts, bad)
  }

  lemma NothingTried(w: World, d: Retries, i: nat, rows: seq<Row>)
    requires History(w, d, rows) && MayFollow(w, d, rows, i) && NextEntry(rows) == i && forall r :: r in rows ==> r.entry < i
    ensures Retrying(w, d, i, rows, rows, 0, 0)
  {
    NoneYet(w, Every, i, rows);
    NoneYet(w, Timeouts, i, rows);
    NoneYet(w, Bad, i, rows);
  }

  lemma GoesOn(w: World, d: Retries, i: nat, width: nat, rows0: seq<Row>, rows: seq<Row>, rows': seq<Row>,
               timeouts: nat, bad: nat, next: Next)
    requires Retrying(w, d, i, rows0, rows, timeouts, bad) && Attempted(w, d, i, width, rows, rows', next)
    ensures Adds(i, rows0, rows') && (next != Settled(Throw) ==> |rows'| > |rows0|)
    ensures next.Again? ==> Retrying(w, d, i, rows0, rows', next.timeouts, next.bad)
  {
    AddsMore(i, rows0, rows, rows');
  }

  lemma AddsMore(i: nat, rows0: seq<Row>, rows: seq<Row>, rows': seq<Row>)
    requires Adds(i, rows0, rows) && |rows| <= |rows'| <= |rows| + 1 && rows'[..|rows|] == rows
    requires |rows'| > |rows| ==> rows'[|rows|].entry == i
    ensures Adds(i, rows0, rows')
  {
    assert rows'[..|rows0|] == rows'[..|rows|][..|rows0|];
    assert forall k :: 0 <= k < |rows| ==> rows'[k] == rows'[..|rows|][k];
  }

  // ----------------------------------------------------------------- one pass

  /** The last row says the entry before i could not serve. */
  predicate Done(i: nat, rows: seq<Row>)
  {
    if i == 0 then rows == []
    else |rows| > 0 && rows[|rows| - 1].entry == i - 1 && CouldNotServe(rows[|rows| - 1].fate)
  }

  /** The state between two entries. */
  ghost predicate Between(w: World, d: Retries, i: nat, rows: seq<Row>)
  {
    && History(w, d, rows) && Done(i, rows)
    && (forall r :: r in rows ==> r.entry < i)
    && forall e: nat :: Count(w, Every, e, rows) <= MaxLaunches(d)
  }

  /** A checked-out entry: its rows so far, and what it makes of them. */
  ghost predicate Ended(w: World, d: Retries, i: nat, width: nat, rows: seq<Row>, step: Step)
  {
    Within(rows, i + 1) &&
    match step
    case Throw => Sound(w, d, width, Raised(rows))
    case Advance => Between(w, d, i + 1, rows)
    case Stop(p) => Sound(w, d, width, Returned(rows, p, AcceptedBy(rows, p)))
  }

  function AcceptedBy(rows: seq<Row>, p: Option<Parsed>): Option<nat>
  {
    if p.Some? && p.value.ok && |rows| > 0 then Some(rows[|rows| - 1].entry) else None
  }

  lemma {:induction false} CountElsewhere(w: World, which: Which, e: nat, i: nat, before: seq<Row>, rows: seq<Row>)
    requires Adds(i, before, rows) && e != i
    ensures Count(w, which, e, rows) == Count(w, which, e, before)
    decreases |rows|
  {
    if |rows| > |before| {
      var init := rows[..|rows| - 1];
      assert init[..|before|] == rows[..|before|];
      CountElsewhere(w, which, e, i, before, init);
    } else {
      assert rows == rows[..|before|];
    }
  }

  lemma EntrySound(w: World, d: Retries, i: nat, width: nat, before: seq<Row>, rows: seq<Row>, step: Step)
    requires i < width && Between(w, d, i, before) && Adds(i, before, rows) && (!step.Throw? ==> |rows| > |before|)
    requires History(w, d, rows) && EndsEntry(w, d, i, width, rows, step) && Count(w, Every, i, rows) <= MaxLaunches(d)
    ensures Ended(w, d, i, width, rows, step)
  {
    forall e: nat
      ensures Count(w, Every, e, rows) <= MaxLaunches(d)
    {
      if e != i {
        CountElsewhere(w, Every, e, i, before, rows);
      }
    }
    forall r | r in rows
      ensures r.entry <= i
    {
      var k :| 0 <= k < |rows| && rows[k] == r;
      if k < |before| {
        assert r == rows[..|before|][k] == before[k];
        assert r in before;
      }
    }
  }

  /** A row written before any attempt of entry i ends it. */
  lemma SkipEntry(w: World, d: Retries, i: nat, width: nat, before: seq<Row>, fate: Fate)
    requires i < width && Between(w, d, i, before) && (fate.Skipped? || fate.NoSlot? || fate.Rejected?)
    requires Truthful(w, Row(|before| + 1, i, fate))
    ensures Ended(w, d, i, width, before + [Row(|before| + 1, i, fate)], if fate.Rejected? then Stop(None) else Advance)
  {
    var rows := before + [Row(|before| + 1, i, fate)];
    NoneYet(w, Every, i, before);
    Extend(w, d, before, Row(|before| + 1, i, fate));
    CountMore(w, Every, i, before, Row(|before| + 1, i, fate));
    assert rows[..|before|] == before;
    EntrySound(w, d, i, width, before, rows, if fate.Rejected? then Stop(None) else Advance);
  }

  /** An exception at the boundary of entry i leaves with the rows before it. */
  lemma ThrowEntry(w: World, d: Retries, i: nat, width: nat, before: seq<Row>)
    requires i < width && Between(w, d, i, before) && !Opens(w.probe(i))
    requires var p := w.probe(i); p.cancelled || (!Blocked(p) && p.prompt.Fits? && p.slot.Interrupted?)
    ensures Ended(w, d, i, width, before, Throw)
  {
    assert NextEntry(before) == i;
    if before != [] {
      assert before[|before| - 1] in before;
    }
  }

  /** The entry once its slot is held. */
  method Serve(w: World, d: Retries, i: nat, width: nat, before: seq<Row>, now0: int)
    returns (step: Step, rows: seq<Row>, now: int)
    requires i < width && Opens(w.probe(i)) && Between(w, d, i, before)
    ensures Ended(w, d, i, width, rows, step)
    ensures now - now0 == Used(w, rows, step) - Time(w, before) >= 0
  {
    step, rows, now := Attempts(w, d, i, width, before, now0);
    EntrySound(w, d, i, width, before, rows, step);
  }

  /** What an entry has spent in launches by the time it ends. */
  function Used(w: World, rows: seq<Row>, step: Step): nat
  {
    Time(w, rows) + if step.Throw? then Lost(w, rows) else 0
  }

  // ------------------------------------------------------------------ the slot

  /** What one entry meets while it queues for its provider's slot, and what others do while it holds it. */
  datatype Queue = Queue(pool: string, queuedAt: int, polls: nat -> Capacity.Poll, during: seq<Admission.Event>)

  /** The process judges itself truthfully, and lives: a killed process has no exit to speak of. */
  ghost predicate Lively(q: Queue, pid: nat)
  {
    forall k: nat :: Capacity.Truthful(q.polls(k).observe(pid)) && !q.polls(k).fault.Killed?
  }

  /** The polls as they happen when time passes in pauses only: by the last one the deadline is reached. */
  function Script(q: Queue, start: int, wait: nat, pause: nat): (script: seq<Capacity.Poll>)
    ensures |script| == wait + 1
  {
    seq(wait + 1, k requires 0 <= k < wait + 1 =>
      var at := Capacity.Clock(start, start + wait, pause, k); q.polls(k).(top := at, bottom := at))
  }

  lemma ScriptFacts(q: Queue, pid: nat, start: int, wait: nat, pause: nat)
    requires pause >= 1 && Lively(q, pid)
    ensures Decisive(Script(q, start, wait, pause), pid, start, wait, pause)
  {
    var s := Script(q, start, wait, pause);
    Capacity.ClockRuns(start, start + wait, pause, wait);
    assert s[wait].bottom == start + wait;
    forall k | 0 <= k < |s|
      ensures Capacity.Truthful(s[k].observe(pid)) && !s[k].fault.Killed?
    {
      assert s[k].observe == q.polls(k).observe && s[k].fault == q.polls(k).fault;
    }
  }

  /** The pass's shared allowance, idle between two waits. */
  ghost predicate Idle(a: Budgets.ProviderAllowance, now: int)
    reads a
  {
    a.Valid() && a.since.None? && a.last <= now && 0 <= a.spent <= a.seconds
  }

  /** The polls of a process that lives, on a clock that moves in pauses and reaches the deadline. */
  ghost predicate Decisive(script: seq<Capacity.Poll>, pid: nat, start: int, wait: nat, pause: nat)
  {
    && Capacity.Honest(script, pid) && !Capacity.Kills(script)
    && Capacity.Punctual(script, start, start + wait, pause)
    && !Capacity.PolledOn(script, |script|, start + wait)
  }

  /** Poll for a slot, for `wait` ticks at the most; anything but a grant leaves the row over. */
  method PollForSlot(store: Capacity.Store, q: Queue, pid: nat, pause: nat, now0: int, wait: nat, ghost room: nat)
    returns (slot: Slot, ticket: Capacity.Ticket, slept: int)
    requires store.Valid() && pid > 0 && pause >= 1 && Lively(q, pid)
    modifies store
    ensures 0 <= slept <= wait && Queued(store, ticket, pid, slot) && fresh(ticket)
    ensures old(store.log) <= store.log && ticket.id >= |old(store.rows)|
    ensures AllOver(old(store.rows)) && RoomFor(q, pause, wait, room) ==>
              slot.Granted? && slept == room && Capacity.Lone(store.rows, ticket.id)
  {
    ScriptFacts(q, pid, now0, wait, pause);
    if AllOver(store.rows) && RoomFor(q, pause, wait, room) {
      RoomInScript(q, now0, wait, room);
    }
    slot, ticket, slept := PollScript(store, q.pool, q.queuedAt, pid, pause, now0, wait, Script(q, now0, wait, pause), room);
  }

  method PollScript(store: Capacity.Store, pool: string, queuedAt: int, pid: nat, pause: nat, now0: int, wait: nat,
                    script: seq<Capacity.Poll>, ghost room: nat)
    returns (slot: Slot, ticket: Capacity.Ticket, slept: int)
    requires store.Valid() && pid > 0 && pause >= 1 && Decisive(script, pid, now0, wait, pause)
    modifies store
    ensures 0 <= slept <= wait && Queued(store, ticket, pid, slot) && fresh(ticket)
    ensures old(store.log) <= store.log && ticket.id >= |old(store.rows)|
    ensures AllOver(old(store.rows)) && Capacity.GrantedFrom(script, now0 + wait, room, 0) ==>
              slot.Granted? && now0 + slept == Capacity.Clock(now0, now0 + wait, pause, room)
              && Capacity.Lone(store.rows, ticket.id)
  {
    var out;
    ghost var turns;
    out, ticket, slept, turns := Capacity.Acquire(store, Admission.Provider(pool), pool, pid, {}, false, queuedAt,
                                                  now0, wait, pause, script, room);
    SleptInTime(script, now0, wait, pause, turns);
    QueuedAfter(store, ticket, pool, pid, script, now0 + wait, old(store.rows), out);
    slot := SlotOf(out);
  }

  function SlotOf(out: Capacity.Outcome): Slot
  {
    match out case Got => Granted case TimedOut => Contended case _ => Interrupted
  }

  lemma SleptInTime(script: seq<Capacity.Poll>, start: int, wait: nat, pause: nat, turns: nat)
    requires pause >= 1 && Capacity.Punctual(script, start, start + wait, pause) && turns <= |script|
    ensures var slept := Capacity.SleptFor(script, start + wait, pause, turns);
            0 <= slept <= wait && start + slept == Capacity.Clock(start, start + wait, pause, turns)
  {
    Capacity.PunctualSleep(script, start, start + wait, pause, turns);
    Capacity.ClockRuns(start, start + wait, pause, turns);
  }

  /** Where nobody is killed and the polls reach the deadline, every attempt is decided. */
  lemma QueuedAfter(store: Capacity.Store, ticket: Capacity.Ticket, pool: string, pid: nat, script: seq<Capacity.Poll>, deadline: int,
                    before: Admission.Table, out: Capacity.Outcome)
    requires pid > 0 && !Capacity.Kills(script) && !Capacity.PolledOn(script, |script|, deadline)
    requires Capacity.Left(store, ticket, Admission.Provider(pool), pool, pid, {}, false, script, deadline, before, out)
    ensures Queued(store, ticket, pid, SlotOf(out))
  {
  }

  /** The wait for a slot, out of what is left of the allowance. */
  method AwaitSlot(store: Capacity.Store, a: Budgets.ProviderAllowance, q: Queue, pid: nat, pause: nat, now0: int, ghost room: nat)
    returns (slot: Slot, ticket: Capacity.Ticket, now: int)
    requires store.Valid() && pid > 0 && pause >= 1 && Lively(q, pid) && Idle(a, now0)
    modifies a, store
    ensures Idle(a, now) && now - now0 == a.spent - old(a.spent) >= 0
    ensures Queued(store, ticket, pid, slot) && fresh(ticket) && old(store.log) <= store.log
    ensures ticket.id >= |old(store.rows)|
    ensures AllOver(old(store.rows)) && RoomFor(q, pause, a.seconds - old(a.spent), room) ==>
              slot.Granted? && a.spent == old(a.spent) + room && Capacity.Lone(store.rows, ticket.id)
  {
    var left := a.Remaining(now0);
    Reading(a.log, a.spent, a.since, a.born, a.last, now0);
    assert forall k :: 0 <= k < |a.log| ==> !a.log[k].open;
    a.Begin(now0);
    var slept;
    slot, ticket, slept := PollForSlot(store, q, pid, pause, now0, left, room);
    now := now0 + slept;
    a.End(now);
  }

  /** A granted ticket knows its row; any other is over. */
  ghost predicate Queued(store: Capacity.Store, ticket: Capacity.Ticket, pid: nat, slot: Slot)
    reads store, ticket
  {
    && store.Valid() && pid > 0 && ticket.parent == null
    && ticket.id < |store.rows| && store.rows[ticket.id].pid == pid
    && ticket.status == store.rows[ticket.id].status
    && (!slot.Granted? ==> Admission.Terminal(ticket.status))
  }

  /** Give the slot back: a ticket that an age reclaim already ended stays as it is. */
  method Release(store: Capacity.Store, ticket: Capacity.Ticket, pid: nat, during: seq<Admission.Event>)
    requires Queued(store, ticket, pid, Granted)
    modifies store, ticket`status
    ensures store.Valid() && old(store.log) <= store.log
    ensures GivenBack(store.rows, ticket.id)
    ensures during == [] && Capacity.Lone(old(store.rows), ticket.id) ==> AllOver(store.rows)
  {
    var active := !Admission.Terminal(ticket.status);
    ghost var was := store.rows;
    store.Interleave(during, {ticket.id}, pid);
    assert ticket.id in {ticket.id};
    if active {
      ticket.status := store.CapacityFinish(ticket.id, Admission.Released);
    }
  }

  predicate GivenBack(t: Admission.Table, id: nat)
  {
    id < |t| && Admission.Terminal(t[id].status)
  }

  predicate AllOver(t: Admission.Table)
  {
    forall j :: 0 <= j < |t| ==> Admission.Terminal(t[j].status)
  }

  /**
   * Nobody else is about, and the provider has no capacity to give until poll `m`. The clauses about `RoomFor`
   * and `Unhindered` below follow such a pass, for `LongestRun` to put together; no other depends on them.
   */
  ghost predicate RoomAt(q: Queue, m: nat)
  {
    && q.during == [] && q.polls(m).capacity >= 1
    && (forall k: nat :: Capacity.Solitary(q.polls(k)))
    && forall k: nat :: k < m ==> q.polls(k).capacity < 1
  }

  lemma RoomInScript(q: Queue, start: int, wait: nat, m: nat)
    requires RoomAt(q, m) && (m > 0 ==> m < wait)
    ensures Capacity.GrantedFrom(Script(q, start, wait, 1), start + wait, m, 0)
    ensures Capacity.Clock(start, start + wait, 1, m) == start + m
  {
    RoomFrom(q, start, wait, m, 0);
    Capacity.ClockRuns(start, start + wait, 1, m);
  }

  lemma {:induction false} RoomFrom(q: Queue, start: int, wait: nat, m: nat, k: nat)
    requires RoomAt(q, m) && (m > 0 ==> m < wait) && k <= m
    ensures Capacity.GrantedFrom(Script(q, start, wait, 1), start + wait, m, k)
    decreases m - k
  {
    var s := Script(q, start, wait, 1);
    Capacity.ClockRuns(start, start + wait, 1, k);
    assert s[k] == q.polls(k).(top := start + k, bottom := start + k);
    assert Capacity.Solitary(q.polls(k));
    if k < m {
      RoomFrom(q, start, wait, m, k + 1);
    }
  }

  // --------------------------------------------------------------- the entries

  /** The same world, but for what the slots of the first entries turned out to be. */
  function Met(w: World, found: seq<Slot>): World
  {
    w.(probe := (k: nat) => if k < |found| then w.probe(k).(slot := found[k]) else w.probe(k))
  }

  lemma {:induction false} CountSame(w: World, v: World, which: Which, e: nat, rows: seq<Row>)
    requires v.answer == w.answer
    ensures Count(v, which, e, rows) == Count(w, which, e, rows) && Time(v, rows) == Time(w, rows)
  {
    if rows != [] {
      CountSame(w, v, which, e, rows[..|rows| - 1]);
    }
  }

  /** What entry i finds has no part in the history before it. */
  lemma {:induction false} HistorySame(w: World, v: World, d: Retries, i: nat, rows: seq<Row>)
    requires v.answer == w.answer && forall k: nat :: k < i ==> v.probe(k) == w.probe(k)
    requires History(w, d, rows) && forall r :: r in rows ==> r.entry < i
    ensures History(v, d, rows)
  {
    if rows != [] {
      var k := |rows| - 1;
      HistorySame(w, v, d, i, rows[..k]);
      if k > 0 {
        CountSame(w, v, Timeouts, rows[k - 1].entry, rows[..k]);
        CountSame(w, v, Bad, rows[k - 1].entry, rows[..k]);
      }
    }
  }

  /** One more slot is decided; the entries before it are as they were. */
  lemma MetMore(w: World, found: seq<Slot>, slot: Slot, d: Retries, rows: seq<Row>)
    requires Between(Met(w, found), d, |found|, rows)
    ensures Between(Met(w, found + [slot]), d, |found|, rows)
  {
    var v := Met(w, found + [slot]);
    HistorySame(Met(w, found), v, d, |found|, rows);
    forall e: nat
      ensures Count(v, Every, e, rows) <= MaxLaunches(d)
    {
      CountSame(Met(w, found), v, Every, e, rows);
    }
  }

  /** Every slot this pass ever queued for is over. */
  ghost predicate NoneHeld(store: Capacity.Store, slots: seq<nat>)
    reads store
  {
    store.Valid() && Ascending(slots) && forall k :: 0 <= k < |slots| ==> GivenBack(store.rows, slots[k])
  }

  /** Every slot queued for has a row of its own. */
  ghost predicate Ascending(slots: seq<nat>)
  {
    forall i, j :: 0 <= i < j < |slots| ==> slots[i] < slots[j]
  }

  /** How many of the first n entries got as far as the queue. */
  function TriedCount(w: World, n: nat): nat
  {
    if n == 0 then 0 else TriedCount(w, n - 1) + if Tried(w.probe(n - 1)) then 1 else 0
  }

  /** Others' steps and mine never bring a finished row back. */
  lemma StillOver(log: seq<Admission.Event>, more: seq<Admission.Event>, id: nat)
    requires log <= more && GivenBack(Admission.Replay(log), id)
    ensures GivenBack(Admission.Replay(more), id)
  {
    assert more[..|log|] == log && more[..|more|] == more;
    AdmissionLaws.RowHistory(more, |log|, |more|, id);
  }

  lemma AllStillOver(log: seq<Admission.Event>, more: seq<Admission.Event>, slots: seq<nat>)
    requires log <= more && forall k :: 0 <= k < |slots| ==> GivenBack(Admission.Replay(log), slots[k])
    ensures forall k :: 0 <= k < |slots| ==> GivenBack(Admission.Replay(more), slots[k])
  {
    forall k | 0 <= k < |slots|
      ensures GivenBack(Admission.Replay(more), slots[k])
    {
      StillOver(log, more, slots[k]);
    }
  }

  /** Nothing turns this entry away before its slot. */
  predicate Tried(p: Probe)
  {
    !p.cancelled && !Blocked(p) && p.prompt.Fits?
  }

  /** The checks before admission, for an entry they end. */
  method Check(w: World, d: Retries, i: nat, width: nat, before: seq<Row>) returns (step: Step, rows: seq<Row>)
    requires i < width && Between(w, d, i, before) && !Tried(w.probe(i))
    ensures Ended(w, d, i, width, rows, step)
    ensures Used(w, rows, step) == Time(w, before)
  {
    var n := |before| + 1;
    var p := w.probe(i);
    if p.cancelled {
      ThrowEntry(w, d, i, width, before);
      return Throw, before;
    }
    var fate := if p.cached || p.absent || p.spent || p.prompt.TooLarge? then Skipped else Rejected;
    step, rows := Pass(w, d, i, width, before, fate);
  }

  /** An entry that ends in a row without a launch. */
  method Pass(w: World, d: Retries, i: nat, width: nat, before: seq<Row>, fate: Fate) returns (step: Step, rows: seq<Row>)
    requires i < width && Between(w, d, i, before) && (fate.Skipped? || fate.NoSlot? || fate.Rejected?)
    requires Truthful(w, Row(|before| + 1, i, fate))
    ensures Ended(w, d, i, width, rows, step) && !step.Throw?
    ensures Time(w, rows) == Time(w, before)
  {
    SkipEntry(w, d, i, width, before, fate);
    step := if fate.Rejected? then Stop(None) else Advance;
    rows := before + [Row(|before| + 1, i, fate)];
    assert rows[..|before|] == before;
  }

  /** An entry whose slot was decided: served, passed over, or left with an exception. */
  method Admitted(w: World, d: Retries, i: nat, width: nat, before: seq<Row>, now0: int)
    returns (step: Step, rows: seq<Row>, now: int)
    requires i < width && Between(w, d, i, before) && Tried(w.probe(i))
    ensures Ended(w, d, i, width, rows, step)
    ensures now - now0 == Used(w, rows, step) - Time(w, before) >= 0
  {
    now := now0;
    match w.probe(i).slot
    case Interrupted =>
      ThrowEntry(w, d, i, width, before);
      return Throw, before, now;
    case Contended =>
      step, rows := Pass(w, d, i, width, before, NoSlot);
    case Granted =>
      step, rows, now := Serve(w, d, i, width, before, now);
  }

  /** Queue for the slot; the slots of earlier entries stay over. */
  method Enter(store: Capacity.Store, a: Budgets.ProviderAllowance, q: Queue, pid: nat, pause: nat, now0: int,
               ghost slots: seq<nat>, ghost room: nat)
    returns (slot: Slot, ticket: Capacity.Ticket, now: int)
    requires NoneHeld(store, slots) && pid > 0 && pause >= 1 && Lively(q, pid) && Idle(a, now0)
    modifies a, store
    ensures Idle(a, now) && now - now0 == a.spent - old(a.spent) >= 0
    ensures Queued(store, ticket, pid, slot) && fresh(ticket) && old(store.log) <= store.log && NoneHeld(store, slots)
    ensures forall k :: 0 <= k < |slots| ==> slots[k] < ticket.id
    ensures AllOver(old(store.rows)) && RoomFor(q, pause, a.seconds - old(a.spent), room) ==>
              slot.Granted? && a.spent == old(a.spent) + room && Capacity.Lone(store.rows, ticket.id)
  {
    slot, ticket, now := AwaitSlot(store, a, q, pid, pause, now0, room);
    AllStillOver(old(store.log), store.log, slots);
  }

  /** Whatever came of the entry, its own slot is over too. */
  method Leave(store: Capacity.Store, ticket: Capacity.Ticket, slot: Slot, pid: nat, during: seq<Admission.Event>, ghost slots: seq<nat>)
    requires Queued(store, ticket, pid, slot) && NoneHeld(store, slots) && forall k :: 0 <= k < |slots| ==> slots[k] < ticket.id
    modifies store, ticket`status
    ensures old(store.log) <= store.log && NoneHeld(store, slots + [ticket.id])
    ensures slot.Granted? && during == [] && Capacity.Lone(old(store.rows), ticket.id) ==> AllOver(store.rows)
  {
    if slot.Granted? {
      Release(store, ticket, pid, during);
      AllStillOver(old(store.log), store.log, slots);
    }
  }

  /**
   * One entry: the checks before admission, the slot, the retries, and the slot given back on every
   * exit. `found` tells how the slots turned out, and becomes one longer.
   */
  method Entry(w: World, d: Retries, width: nat, found: seq<Slot>, before: seq<Row>, store: Capacity.Store,
               a: Budgets.ProviderAllowance, q: Queue, pid: nat, pause: nat, now0: int, ghost slots0: seq<nat>, ghost room: nat)
    returns (slot: Slot, step: Step, rows: seq<Row>, now: int, ghost slots: seq<nat>)
    requires |found| < width && Between(Met(w, found), d, |found|, before) && NoneHeld(store, slots0) && Idle(a, now0)
    requires pid > 0 && pause >= 1 && Lively(q, pid)
    modifies store, a
    ensures old(store.log) <= store.log && NoneHeld(store, slots) && slots0 <= slots && Idle(a, now)
    ensures |slots| == |slots0| + if Tried(w.probe(|found|)) then 1 else 0
    ensures Ended(Met(w, found + [slot]), d, |found|, width, rows, step)
    ensures now - now0 == a.spent - old(a.spent) + Used(Met(w, found + [slot]), rows, step) - Time(w, before)
    ensures Tried(w.probe(|found|)) && AllOver(old(store.rows)) && RoomFor(q, pause, a.seconds - old(a.spent), room) ==>
              slot.Granted? && a.spent == old(a.spent) + room && AllOver(store.rows)
  {
    slot, slots := w.probe(|found|).slot, slots0;
    if !Tried(w.probe(|found|)) {
      MetMore(w, found, slot, d, before);
      CountSame(w, Met(w, found + [slot]), Every, 0, before);
      step, rows := Check(Met(w, found + [slot]), d, |found|, width, before);
      return slot, step, rows, now0, slots;
    }
    var ticket;
    slot, ticket, now := Enter(store, a, q, pid, pause, now0, slots, room);
    MetMore(w, found, slot, d, before);
    CountSame(w, Met(w, found + [slot]), Every, 0, before);
    step, rows, now := Admitted(Met(w, found + [slot]), d, |found|, width, before, now);
    Leave(store, ticket, slot, pid, q.during, slots);
    slots := slots + [ticket.id];
  }

  /** Room for this entry at its poll `room`, before its wait runs out. */
  ghost predicate RoomFor(q: Queue, pause: nat, left: int, room: nat)
  {
    RoomAt(q, room) && pause == 1 && (room > 0 ==> room < left)
  }

  // ---------------------------------------------------------------- the chain

  /** Nobody else is about, nothing turns an entry away, and the first slot frees up at poll `room` of a one-tick pause. */
  ghost predicate Unhindered(w: World, queues: nat -> Queue, pause: nat, left: int, room: nat)
  {
    && pause == 1 && (room > 0 ==> room < left)
    && (forall i: nat :: Tried(w.probe(i)) && w.probe(i).slot.Granted?)
    && forall i: nat :: RoomAt(queues(i), if i == 0 then room else 0)
  }

  /** Of an unhindered pass, every slot was granted, and only the first took time. */
  ghost predicate AsPlanned(t: Admission.Table, found: seq<Slot>, spent: int, room: nat)
  {
    AllOver(t) && AllGranted(found) && spent == if found == [] then 0 else room
  }

  predicate AllGranted(found: seq<Slot>)
  {
    forall k :: 0 <= k < |found| ==> found[k].Granted?
  }

  /** The state of a pass between two entries. */
  ghost predicate Underway(w: World, d: Retries, found: seq<Slot>, rows: seq<Row>, slots: seq<nat>)
  {
    Between(Met(w, found), d, |found|, rows) && |slots| == TriedCount(w, |found|)
  }

  /** Between two entries, with every slot given back and the time accounted for. */
  ghost predicate Onway(w: World, d: Retries, store: Capacity.Store, a: Budgets.ProviderAllowance, found: seq<Slot>,
                        rows: seq<Row>, slots: seq<nat>, spent: int)
    reads store, a
  {
    Underway(w, d, found, rows, slots) && NoneHeld(store, slots) && spent == a.spent + Time(w, rows)
  }

  /** After the last entry. */
  ghost predicate Through(w: World, d: Retries, width: nat, store: Capacity.Store, a: Budgets.ProviderAllowance, found: seq<Slot>,
                          step: Step, rows: seq<Row>, slots: seq<nat>, spent: int)
    reads store, a
  {
    && NoneHeld(store, slots)
    && 1 <= |found| <= width && |slots| == TriedCount(w, |found|) && (step.Advance? ==> |found| == width)
    && Ended(Met(w, found), d, |found| - 1, width, rows, step)
    && spent == a.spent + Used(Met(w, found), rows, step)
  }

  /** The next entry. */
  method NextOne(w: World, d: Retries, width: nat, store: Capacity.Store, a: Budgets.ProviderAllowance, q: Queue, pid: nat,
                 pause: nat, now0: int, found0: seq<Slot>, rows0: seq<Row>, ghost slots0: seq<nat>, ghost start: int,
                 ghost planned: bool, ghost room: nat)
    returns (found: seq<Slot>, step: Step, rows: seq<Row>, now: int, ghost slots: seq<nat>)
    requires |found0| < width && Onway(w, d, store, a, found0, rows0, slots0, now0 - start) && Idle(a, now0)
    requires pid > 0 && pause >= 1 && Lively(q, pid)
    requires planned ==> AsPlanned(store.rows, found0, a.spent, room) && Tried(w.probe(|found0|))
                         && RoomFor(q, pause, a.seconds - a.spent, if |found0| == 0 then room else 0)
    modifies store, a
    ensures old(store.log) <= store.log && Idle(a, now) && |found| == |found0| + 1
    ensures if step.Advance? then Onway(w, d, store, a, found, rows, slots, now - start)
            else Through(w, d, width, store, a, found, step, rows, slots, now - start)
    ensures planned ==> AsPlanned(store.rows, found, a.spent, room)
  {
    var slot;
    slot, step, rows, now, slots := Entry(w, d, width, found0, rows0, store, a, q, pid, pause, now0, slots0,
                                          if |found0| == 0 then room else 0);
    found := found0 + [slot];
    if step.Advance? {
      Onward(w, d, width, found, rows, slots);
    }
  }

  lemma Onward(w: World, d: Retries, width: nat, found: seq<Slot>, rows: seq<Row>, slots: seq<nat>)
    requires found != [] && Ended(Met(w, found), d, |found| - 1, width, rows, Advance) && |slots| == TriedCount(w, |found|)
    ensures Underway(w, d, found, rows, slots) && Used(Met(w, found), rows, Advance) == Time(w, rows)
  {
    CountSame(w, Met(w, found), Every, 0, rows);
  }

  lemma Last(w: World, d: Retries, store: Capacity.Store, a: Budgets.ProviderAllowance, found: seq<Slot>, rows: seq<Row>,
             slots: seq<nat>, spent: int)
    requires found != [] && Onway(w, d, store, a, found, rows, slots, spent)
    ensures Through(w, d, |found|, store, a, found, Advance, rows, slots, spent)
  {
    CountSame(w, Met(w, found), Every, 0, rows);
  }

  lemma PlannedMore(w: World, queues: nat -> Queue, pause: nat, left: int, room: nat, t: Admission.Table, found: seq<Slot>,
                    spent: int)
    requires Unhindered(w, queues, pause, left, room) && AsPlanned(t, found, spent, room)
    ensures Tried(w.probe(|found|))
    ensures RoomFor(queues(|found|), pause, left - spent, if |found| == 0 then room else 0)
  {
    assert RoomAt(queues(|found|), if |found| == 0 then room else 0);
  }

  /** Entry after entry, until one does not pass the review on. */
  method Entries(w: World, d: Retries, width: nat, store: Capacity.Store, a: Budgets.ProviderAllowance, pid: nat,
                 queues: nat -> Queue, pause: nat, now0: int, ghost planned: bool, ghost room: nat)
    returns (found: seq<Slot>, step: Step, rows: seq<Row>, now: int, ghost slots: seq<nat>)
    requires NoneHeld(store, []) && Idle(a, now0) && a.spent == 0
    requires pid > 0 && pause >= 1 && width > 0 && forall i: nat :: Lively(queues(i), pid)
    requires planned ==> AllOver(store.rows) && Unhindered(w, queues, pause, a.seconds, room)
    modifies store, a
    ensures old(store.log) <= store.log && Idle(a, now)
    ensures Through(w, d, width, store, a, found, step, rows, slots, now - now0)
    ensures planned ==> AsPlanned(store.rows, found, a.spent, room)
  {
    found, step, rows, now, slots := [], Advance, [], now0, [];
    for i := 0 to width
      invariant |found| == i && step.Advance? && Onway(w, d, store, a, found, rows, slots, now - now0)
      invariant Idle(a, now) && old(store.log) <= store.log
      invariant planned ==> AsPlanned(store.rows, found, a.spent, room)
    {
      if planned {
        PlannedMore(w, queues, pause, a.seconds, room, store.rows, found, a.spent);
      }
      found, step, rows, now, slots := NextOne(w, d, width, store, a, queues(i), pid, pause, now, found, rows, slots, now0,
                                               planned, room);
      if !step.Advance? {
        return;
      }
    }
    Last(w, d, store, a, found, rows, slots, now - now0);
  }

  /**
   * Run a reviewer chain to a verdict. Whatever the attempts return and however the queues for the slots
   * turn out, the outcome is sound, every slot queued for is over, and the time is that of the launches
   * and of the waits, which share one allowance.
   */
  method RunChain(w: World, d: Retries, width: nat, store: Capacity.Store, pid: nat, queues: nat -> Queue, pause: nat,
                  waitLimit: int, now0: int, ghost room: nat)
    returns (outcome: Outcome, now: int, waited: int, found: seq<Slot>, ghost slots: seq<nat>)
    requires store.Valid() && pid > 0 && pause >= 1 && width > 0 && forall i: nat :: Lively(queues(i), pid)
    modifies store
    // One terminal row for each entry that got as far as the queue.
    ensures old(store.log) <= store.log && NoneHeld(store, slots)
    ensures |found| <= width && |slots| == TriedCount(w, |found|) && Within(outcome.rows, |found|)
    ensures Sound(Met(w, found), d, width, outcome)
    ensures 0 <= waited <= Budgets.Max0(waitLimit) && now - now0 == waited + Elapsed(Met(w, found), outcome)
    ensures AllOver(old(store.rows)) && Unhindered(w, queues, pause, Budgets.Max0(waitLimit), room) ==>
              waited == room && AllGranted(found)
  {
    var allowance := new Budgets.ProviderAllowance(waitLimit, now0);
    ghost var planned := AllOver(store.rows) && Unhindered(w, queues, pause, allowance.seconds, room);
    var step, rows;
    found, step, rows, now, slots := Entries(w, d, width, store, allowance, pid, queues, pause, now0, planned, room);
    Concludes(Met(w, found), d, |found|, width, rows, step);
    outcome, waited := Conclusion(rows, step), allowance.spent;
  }

  function Conclusion(rows: seq<Row>, step: Step): Outcome
  {
    match step
    case Advance => Returned(rows, None, None)
    case Stop(parsed) => Returned(rows, parsed, AcceptedBy(rows, parsed))
    case Throw => Raised(rows)
  }

  /** Where the entries leave off is an outcome. */
  lemma Concludes(w: World, d: Retries, seen: nat, width: nat, rows: seq<Row>, step: Step)
    requires 1 <= seen <= width && Ended(w, d, seen - 1, width, rows, step) && (step.Advance? ==> seen == width)
    ensures Sound(w, d, width, Conclusion(rows, step)) && Within(rows, seen)
    ensures Elapsed(w, Conclusion(rows, step)) == Used(w, rows, step)
  {
  }

  // -------------------------------------------------------------- its longest run

  lemma {:induction false} TimeCapped(w: World, rows: seq<Row>, cap: nat)
    requires Capped(w, cap)
    ensures Time(w, rows) <= |rows| * cap
  {
    if rows != [] {
      var k := |rows| - 1;
      TimeCapped(w, rows[..k], cap);
      assert Took(w.answer(rows[k].n)) <= cap;
      assert |rows| * cap == k * cap + cap;
    }
  }

  /** Rows of the first `width` entries, counted entry by entry. */
  function Rows(w: World, width: nat, rows: seq<Row>): nat
  {
    if width == 0 then 0 else Rows(w, width - 1, rows) + Count(w, Every, width - 1, rows)
  }

  lemma {:induction false} RowsSnoc(w: World, width: nat, rows: seq<Row>)
    requires rows != []
    ensures Rows(w, width, rows) == Rows(w, width, rows[..|rows| - 1]) + if rows[|rows| - 1].entry < width then 1 else 0
  {
    if width > 0 {
      RowsSnoc(w, width - 1, rows);
    }
  }

  lemma {:induction false} RowsAreAll(w: World, width: nat, rows: seq<Row>)
    requires Within(rows, width)
    ensures Rows(w, width, rows) == |rows|
  {
    if rows == [] {
      NoRows(w, width);
    } else {
      RowsSnoc(w, width, rows);
      RowsAreAll(w, width, rows[..|rows| - 1]);
    }
  }

  lemma {:induction false} NoRows(w: World, width: nat)
    ensures Rows(w, width, []) == 0
  {
    if width > 0 {
      NoRows(w, width - 1);
    }
  }

  lemma {:induction false} RowsBounded(w: World, width: nat, rows: seq<Row>, most: nat)
    requires forall e: nat :: e < width ==> Count(w, Every, e, rows) <= most
    ensures Rows(w, width, rows) <= width * most
  {
    if width > 0 {
      RowsBounded(w, width - 1, rows, most);
      assert width * most == (width - 1) * most + most;
    }
  }

  /** Entries come in order. */
  lemma {:induction false} EntriesInOrder(w: World, d: Retries, rows: seq<Row>)
    requires History(w, d, rows) && rows != []
    ensures forall r :: r in rows ==> r.entry <= rows[|rows| - 1].entry
  {
    var front := rows[..|rows| - 1];
    assert rows == front + [rows[|rows| - 1]];
    if front != [] {
      EntriesInOrder(w, d, front);
    }
  }

  /** While another retry is due, an entry has used up no more than its two budgets. */
  lemma {:induction false} RetryBudgets(w: World, d: Retries, rows: seq<Row>)
    requires History(w, d, rows) && rows != [] && RetryDue(w, d, rows)
    ensures Tally(w, d, rows[|rows| - 1].entry, rows, Count(w, Timeouts, rows[|rows| - 1].entry, rows),
                  Count(w, Bad, rows[|rows| - 1].entry, rows))
  {
    var k := |rows| - 1;
    var front, e := rows[..k], rows[k].entry;
    if front != [] && front[k - 1].entry == e {
      RetryBudgets(w, d, front);
    } else {
      if front != [] {
        EntriesInOrder(w, d, front);
      }
      NoneYet(w, Every, e, front);
      NoneYet(w, Timeouts, e, front);
      NoneYet(w, Bad, e, front);
    }
  }

  /** Before every attempt the entry has one launch left. */
  lemma OneLeft(w: World, d: Retries, rows: seq<Row>, e: nat)
    requires History(w, d, rows) && MayFollow(w, d, rows, e)
    ensures Count(w, Every, e, rows) < MaxLaunches(d)
  {
    if rows != [] {
      if rows[|rows| - 1].entry == e {
        RetryBudgets(w, d, rows);
      } else {
        EntriesInOrder(w, d, rows);
        NoneYet(w, Every, e, rows);
      }
    }
  }

  /** If no launch outlives `cap`, a pass spends at most every launch it may make. */
  lemma LaunchesInTime(w: World, d: Retries, width: nat, o: Outcome, cap: nat)
    requires Sound(w, d, width, o) && Capped(w, cap)
    ensures Elapsed(w, o) <= width * MaxLaunches(d) * cap
  {
    var rows := o.rows;
    RowsAreAll(w, width, rows);
    TimeCapped(w, rows, cap);
    if o.Raised? && Opens(w.probe(NextEntry(rows))) {
      OneMoreFits(w, d, width, rows);
      assert Took(w.answer(|rows| + 1)) <= cap;
      Products(|rows| + 1, width * MaxLaunches(d), cap);
      assert (|rows| + 1) * cap == |rows| * cap + cap;
    } else {
      RowsBounded(w, width, rows, MaxLaunches(d));
      Products(|rows|, width * MaxLaunches(d), cap);
    }
  }

  lemma Products(a: nat, b: nat, cap: nat)
    requires a <= b
    ensures a * cap <= b * cap
  {
  }

  lemma OneMoreFits(w: World, d: Retries, width: nat, rows: seq<Row>)
    requires Sound(w, d, width, Raised(rows))
    ensures |rows| < width * MaxLaunches(d)
  {
    var e := NextEntry(rows);
    var row := Row(|rows| + 1, e, Skipped);
    var more := rows + [row];
    OneLeft(w, d, rows, e);
    forall x: nat | x < width
      ensures Count(w, Every, x, more) <= MaxLaunches(d)
    {
      CountMore(w, Every, x, rows, row);
    }
    RowsBounded(w, width, more, MaxLaunches(d));
    RowsAreAll(w, width, more);
  }

  /** Which launch of its entry the n-th attempt is, when every entry makes `m`. */
  function Place(n: nat, m: nat): nat
    decreases n
  {
    if m == 0 || n <= m then n else Place(n - m, m)
  }

  lemma {:induction false} PlaceOf(i: nat, j: nat, m: nat)
    requires 1 <= j <= m
    ensures Place(i * m + j, m) == j
  {
    if i > 0 {
      PlaceOf(i - 1, j, m);
      assert i * m + j - m == (i - 1) * m + j;
      assert i * m >= m;
    }
  }

  /** An entry at its slowest: timeouts that spoke, then degraded answers, then silence. */
  function SlowAnswer(d: Retries, launch: nat, j: nat): Answer
  {
    if j <= d.timeout then Finished(launch, false, true, true, Healthy, Parsed(false, false))
    else if j <= d.timeout + d.degraded then Finished(launch, false, false, false, Degraded, Parsed(true, true))
    else Finished(launch, false, true, false, Healthy, Parsed(false, false))
  }

  function SlowWorld(d: Retries, launch: nat): World
  {
    World((k: nat) => Probe(false, false, false, false, Fits, Granted),
          (n: nat) => SlowAnswer(d, launch, Place(n, MaxLaunches(d))))
  }

  /** A world in which every entry opens and is as slow as it may be. */
  ghost predicate Slow(w: World, d: Retries, launch: nat)
  {
    (forall k: nat :: Opens(w.probe(k))) && forall n: nat :: w.answer(n) == SlowAnswer(d, launch, Place(n, MaxLaunches(d)))
  }

  /** Retries of an entry so far, after j slow launches. */
  function SlowTimeouts(d: Retries, j: nat): nat { if j <= d.timeout then j else d.timeout }

  function SlowBad(d: Retries, j: nat): nat { if j <= d.timeout then 0 else j - d.timeout }

  /** One more slow launch of entry i. */
  lemma SlowLaunch(w: World, d: Retries, launch: nat, i: nat, width: nat, rows0: seq<Row>, rows: seq<Row>, j: nat)
    returns (rows': seq<Row>, next: Next)
    requires Opens(w.probe(i)) && i < width && j < MaxLaunches(d)
    requires w.answer(|rows| + 1) == SlowAnswer(d, launch, j + 1)
    requires Retrying(w, d, i, rows0, rows, SlowTimeouts(d, j), SlowBad(d, j)) && Time(w, rows) == |rows| * launch
    ensures |rows'| == |rows| + 1 && Time(w, rows') == |rows'| * launch
    ensures Attempted(w, d, i, width, rows, rows', next) && Adds(i, rows0, rows')
    ensures if j + 1 == MaxLaunches(d) then next == Settled(if i + 1 < width then Advance else Stop(None))
            else next == Again(SlowTimeouts(d, j + 1), SlowBad(d, j + 1))
                 && Retrying(w, d, i, rows0, rows', SlowTimeouts(d, j + 1), SlowBad(d, j + 1))
  {
    var n := |rows| + 1;
    var row := Row(n, i, FateOf(w.answer(n)));
    rows' := OneRow(rows, row);
    next := if j + 1 == MaxLaunches(d) then Settled(if i + 1 < width then Advance else Stop(None))
            else Again(SlowTimeouts(d, j + 1), SlowBad(d, j + 1));
    RowSound(w, d, i, width, rows, SlowTimeouts(d, j), SlowBad(d, j), rows', next);
    GoesOn(w, d, i, width, rows0, rows, rows', SlowTimeouts(d, j), SlowBad(d, j), next);
    TookIsTime(w, d, i, width, rows, rows', next);
    assert n * launch == |rows| * launch + launch;
  }

  /** An entry part of the way, with nothing but retries behind it. */
  lemma {:induction false} SlowRetries(w: World, d: Retries, launch: nat, i: nat, width: nat, before: seq<Row>, j: nat)
    returns (rows: seq<Row>)
    requires Slow(w, d, launch) && i < width && Between(w, d, i, before) && j < MaxLaunches(d)
    requires |before| == i * MaxLaunches(d) && Time(w, before) == |before| * launch
    ensures |rows| == i * MaxLaunches(d) + j && Time(w, rows) == |rows| * launch
    ensures Retrying(w, d, i, before, rows, SlowTimeouts(d, j), SlowBad(d, j))
    decreases j
  {
    if j == 0 {
      rows := before;
      NothingTried(w, d, i, before);
    } else {
      var next;
      rows := SlowRetries(w, d, launch, i, width, before, j - 1);
      PlaceOf(i, j, MaxLaunches(d));
      rows, next := SlowLaunch(w, d, launch, i, width, before, rows, j - 1);
    }
  }

  /** An entry that makes every launch it may, at full length. */
  lemma SlowEntry(w: World, d: Retries, launch: nat, i: nat, width: nat, before: seq<Row>) returns (rows: seq<Row>)
    requires Slow(w, d, launch) && i < width && Between(w, d, i, before)
    requires |before| == i * MaxLaunches(d) && Time(w, before) == |before| * launch
    ensures |rows| == i * MaxLaunches(d) + MaxLaunches(d) && Time(w, rows) == |rows| * launch
    ensures Ended(w, d, i, width, rows, if i + 1 < width then Advance else Stop(None))
  {
    var next;
    rows := SlowRetries(w, d, launch, i, width, before, MaxLaunches(d) - 1);
    PlaceOf(i, MaxLaunches(d), MaxLaunches(d));
    rows, next := SlowLaunch(w, d, launch, i, width, before, rows, MaxLaunches(d) - 1);
    EntrySound(w, d, i, width, before, rows, if i + 1 < width then Advance else Stop(None));
  }

  /** The slowest history is sound, and lasts as long as all its launches together. */
  lemma SlowChain(w: World, d: Retries, launch: nat, width: nat) returns (o: Outcome)
    requires Slow(w, d, launch) && width > 0
    ensures Sound(w, d, width, o) && Elapsed(w, o) == width * MaxLaunches(d) * launch
  {
    var rows := [];
    var i := 0;
    while i < width
      invariant i <= width && |rows| == i * MaxLaunches(d) && Time(w, rows) == |rows| * launch
      invariant i < width ==> Between(w, d, i, rows)
      invariant i == width ==> Sound(w, d, width, Returned(rows, None, None))
    {
      rows := SlowEntry(w, d, launch, i, width, rows);
      assert (i + 1) * MaxLaunches(d) == i * MaxLaunches(d) + MaxLaunches(d);
      i := i + 1;
    }
    o := Returned(rows, None, None);
  }

  /** A queue in which capacity comes back at poll `m`. */
  function QuietQueue(m: nat): Queue
  {
    Queue("pool", 0,
          (k: nat) => Capacity.Poll(0, 0, false, [], [], [], [], (pid: nat) => Admission.Observation(true, false, false), {},
                                    if k < m then 0 else 1, true, Capacity.NoFault), [])
  }

  /** Only the first entry waits. */
  function QuietQueues(m: nat): nat -> Queue
  {
    (i: nat) => QuietQueue(if i == 0 then m else 0)
  }

  lemma QuietFacts(m: nat, pid: nat)
    ensures RoomAt(QuietQueue(m), m) && Lively(QuietQueue(m), pid)
  {
  }

  lemma SlowFacts(d: Retries, launch: nat, wait: nat, pid: nat)
    ensures Unhindered(SlowWorld(d, launch), QuietQueues(LongestWait(wait)), 1, wait, LongestWait(wait))
    ensures forall i: nat :: Lively(QuietQueues(LongestWait(wait))(i), pid)
  {
    forall i: nat
      ensures RoomAt(QuietQueues(LongestWait(wait))(i), if i == 0 then LongestWait(wait) else 0)
      ensures Lively(QuietQueues(LongestWait(wait))(i), pid)
    {
      QuietFacts(if i == 0 then LongestWait(wait) else 0, pid);
    }
  }

  lemma SlowAsPlanned(d: Retries, launch: nat, found: seq<Slot>)
    requires AllGranted(found)
    ensures Slow(Met(SlowWorld(d, launch), found), d, launch)
  {
  }

  /** The longest wait that still ends in a grant: one tick less than the allowance. */
  function LongestWait(wait: nat): nat { if wait == 0 then 0 else wait - 1 }

  /**
   * For every chain shape and allowance there is a run that makes every launch it may, each as long as
   * `launch`, behind the longest wait that still ends in a grant.
   */
  method LongestRun(d: Retries, launch: nat, width: nat, wait: nat) returns (elapsed: int)
    requires width > 0
    ensures elapsed == width * MaxLaunches(d) * launch + LongestWait(wait)
  {
    var room := LongestWait(wait);
    SlowFacts(d, launch, wait, 7);
    var store := new Capacity.Store();
    var outcome, waited, found;
    ghost var slots;
    outcome, elapsed, waited, found, slots := RunChain(SlowWorld(d, launch), d, width, store, 7, QuietQueues(room), 1,
                                                       wait, 0, room);
    ghost var met := Met(SlowWorld(d, launch), found);
    SlowAsPlanned(d, launch, found);
    ghost var slow := SlowChain(met, d, launch, width);
    OutcomeIsDetermined(met, d, width, outcome, slow);
  }

  // ------------------------------------------------ what a history tells a reader

  /** Rows are numbered 1, 2, 3, ... without a gap across the whole chain. */
  lemma {:induction false} RowsNumbered(w: World, d: Retries, rows: seq<Row>, k: nat)
    requires History(w, d, rows) && k < |rows|
    ensures rows[k].n == k + 1 && Truthful(w, rows[k])
  {
    if k < |rows| - 1 {
      RowsNumbered(w, d, rows[..|rows| - 1], k);
    }
  }

  /**
   * An entry is passed over only on evidence that its provider could not serve: the row just before
   * the next entry's first one says so, and no entry is jumped.
   */
  lemma {:induction false} PassedOver(w: World, d: Retries, rows: seq<Row>, e: nat)
    requires History(w, d, rows) && rows != [] && e < rows[|rows| - 1].entry
    ensures exists k, m :: 0 <= k && m == k + 1 < |rows| && rows[k].entry == e && CouldNotServe(rows[k].fate)
                           && rows[m].entry == e + 1
  {
    var last := |rows| - 1;
    var init := rows[..last];
    assert init != [];
    if rows[last].entry == e + 1 && init[last - 1].entry == e {
      assert rows[last - 1].entry == e && CouldNotServe(rows[last - 1].fate);
    } else {
      PassedOver(w, d, init, e);
      var k, m :| 0 <= k && m == k + 1 < |init| && init[k].entry == e && CouldNotServe(init[k].fate) && init[m].entry == e + 1;
      assert rows[k] == init[k] && rows[m] == init[m];
    }
  }

  /** An entry that produced a sound answer is never passed over: its row is the last one. */
  lemma {:induction false} GoodAnswerEndsChain(w: World, d: Retries, rows: seq<Row>, k: nat)
    requires History(w, d, rows) && k < |rows|
    requires rows[k].fate.Served? && rows[k].fate.kind != Unavailable && !AnsweredBadly(w, rows[k])
    ensures k == |rows| - 1
  {
    if k < |rows| - 1 {
      var init := rows[..|rows| - 1];
      GoodAnswerEndsChain(w, d, init, k);
    }
  }

  // ------------------------------------------- nothing else can come of it

  /** After the same rows, the next row is the same. */
  lemma NextRowSame(w: World, d: Retries, rows: seq<Row>, a: Row, b: Row)
    requires MayFollow(w, d, rows, a.entry) && MayFollow(w, d, rows, b.entry)
    requires Truthful(w, a) && Truthful(w, b) && a.n == b.n
    ensures a == b
  {
    assert a.entry == b.entry;
    assert a.fate == b.fate;
  }

  lemma {:induction false} SamePrefix(w: World, d: Retries, a: seq<Row>, b: seq<Row>)
    requires History(w, d, a) && History(w, d, b) && |a| <= |b|
    ensures a == b[..|a|]
    decreases |b|
  {
    if |a| < |b| {
      SamePrefix(w, d, a, b[..|b| - 1]);
      assert b[..|b| - 1][..|a|] == b[..|a|];
    } else if a != [] {
      var k := |a| - 1;
      SamePrefix(w, d, a[..k], b[..k]);
      assert b[..k][..k] == b[..k];
      NextRowSame(w, d, a[..k], a[k], b[k]);
      assert a == a[..k] + [a[k]] && b == b[..k] + [b[k]];
      assert b[..|a|] == b;
    } else {
      assert a == b[..|a|];
    }
  }

  lemma {:induction false} HistoryPrefix(w: World, d: Retries, rows: seq<Row>, k: nat)
    requires History(w, d, rows) && k < |rows|
    ensures History(w, d, rows[..k]) && MayFollow(w, d, rows[..k], rows[k].entry) && rows[k].n == k + 1 && Truthful(w, rows[k])
    decreases |rows|
  {
    var front := rows[..|rows| - 1];
    if k < |front| {
      HistoryPrefix(w, d, front, k);
      assert front[..k] == rows[..k];
    }
  }

  /** Where one run ends, no other run of the same world goes on. */
  lemma NothingFollows(w: World, d: Retries, width: nat, o: Outcome, next: Row)
    requires Sound(w, d, width, o) && next.entry < width && next.n == |o.rows| + 1 && Truthful(w, next)
    ensures !MayFollow(w, d, o.rows, next.entry)
  {
  }

  /** The promise is complete: the world alone decides the outcome. */
  lemma OutcomeIsDetermined(w: World, d: Retries, width: nat, a: Outcome, b: Outcome)
    requires Sound(w, d, width, a) && Sound(w, d, width, b) && width > 0
    ensures a == b
  {
    if |a.rows| < |b.rows| {
      RunsOn(w, d, width, a, b);
    } else if |b.rows| < |a.rows| {
      RunsOn(w, d, width, b, a);
    }
    SamePrefix(w, d, a.rows, b.rows);
    assert b.rows[..|a.rows|] == b.rows;
    EndSame(w, d, width, a, b);
  }

  lemma RunsOn(w: World, d: Retries, width: nat, a: Outcome, b: Outcome)
    requires Sound(w, d, width, a) && Sound(w, d, width, b)
    ensures |a.rows| >= |b.rows|
  {
    if |a.rows| < |b.rows| {
      var k := |a.rows|;
      SamePrefix(w, d, a.rows, b.rows);
      HistoryPrefix(w, d, b.rows, k);
      assert b.rows[k] in b.rows;
      NothingFollows(w, d, width, a, b.rows[k]);
    }
  }

  /** The same rows end in the same way. */
  lemma EndSame(w: World, d: Retries, width: nat, a: Outcome, b: Outcome)
    requires Sound(w, d, width, a) && Sound(w, d, width, b) && a.rows == b.rows && width > 0
    ensures a == b
  {
  }
}
