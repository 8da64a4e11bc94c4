/** The background reviews table: its atomic transitions, and what every history of them keeps. */
module Reservations {
  import opened Ticks
  import Records

  /** `Done` is any end a review reaches by itself; demotion and failure are `Failed`. */
  datatype Status = Running | Superseded | Failed | Done

  /** The three trust axes of a record. */
  datatype Axes = Axes(parseOk: bool, degraded: bool, truncated: bool)

  predicate Trusts(a: Axes)
  {
    Records.IsTrustworthy(a.parseOk, a.degraded, a.truncated)
  }

  /** `branch` stands for repository and branch; `diff` and `base` for the reserved content identity. */
  datatype Row = Row(
    branch: nat, diff: nat, base: nat, pid: Option<nat>, status: Status, axes: Axes, trustworthy: bool,
    supersededBy: Option<nat>, published: bool, cancelRequested: bool)

  type Table = seq<Row>

  /** One committed store call. Rows are numbered in the order they were reserved. */
  datatype Event =
    | Reserve(branch: nat, diff: nat, base: nat, evidence: bool)
    | AttachPid(id: nat, pid: nat)
    | Publish(id: nat, pid: nat)
    | RequestCancel(id: nat)
    | Finalize(id: nat, status: Status, axes: Axes)
    | FailIfRunning(id: nat)
    | MarkFailed(id: nat)
    | MarkCancelled(id: nat)

  // -------------------------------------------------------------- transitions

  /** The newest trustworthy terminal review of this diff, if any. */
  function Newest(t: Table, diff: nat): (r: Option<nat>)
    ensures r.Some? ==> r.value < |t| && t[r.value].diff == diff && t[r.value].trustworthy && !t[r.value].status.Running?
    ensures r.None? ==> forall i :: 0 <= i < |t| && t[i].trustworthy && !t[i].status.Running? ==> t[i].diff != diff
  {
    if t == [] then None
    else
      var k := |t| - 1;
      if t[k].diff == diff && t[k].trustworthy && !t[k].status.Running? then Some(k) else Newest(t[..k], diff)
  }

  /** The review a push may be skipped for: the newest match, on the same base, if the evidence permits. */
  function SuppressedBy(t: Table, e: Event): (r: Option<nat>)
    requires e.Reserve?
    ensures r.Some? ==> r.value < |t|
  {
    var m := Newest(t, e.diff);
    if e.evidence && m.Some? && t[m.value].base == e.base then m else None
  }

  predicate RunningOn(r: Row, branch: nat)
  {
    r.branch == branch && r.status.Running?
  }

  /** Every running row of the branch is retired in favour of row `winner`. */
  function Retired(t: Table, branch: nat, winner: nat): (r: Table)
    ensures |r| == |t|
    ensures forall i :: 0 <= i < |t| ==>
      r[i] == if RunningOn(t[i], branch) then t[i].(status := Superseded, supersededBy := Some(winner)) else t[i]
  {
    if t == [] then []
    else
      var k := |t| - 1;
      Retired(t[..k], branch, winner)
      + [if RunningOn(t[k], branch) then t[k].(status := Superseded, supersededBy := Some(winner)) else t[k]]
  }

  function Fresh(e: Event): Row
    requires e.Reserve?
  {
    Row(e.branch, e.diff, e.base, None, Running, Axes(false, false, false), false, None, false, false)
  }

  /** `_FAIL_REVIEW`: status and trust move together. */
  function Demoted(r: Row): Row
  {
    r.(status := Failed, axes := r.axes.(parseOk := false), trustworthy := false)
  }

  function Apply(t: Table, e: Event): Table
  {
    match e
    case Reserve(branch, _, _, _) =>
      if SuppressedBy(t, e).Some? then t else Retired(t, branch, |t|) + [Fresh(e)]
    case AttachPid(id, pid) =>
      if id < |t| && t[id].status.Running? && t[id].pid.None? then t[id := t[id].(pid := Some(pid))] else t
    case Publish(id, pid) =>
      if id < |t| && t[id].status.Running? && (t[id].pid.None? || t[id].pid.value == pid)
      then t[id := t[id].(published := true)] else t
    case RequestCancel(id) =>
      if id < |t| && t[id].status.Running? then t[id := t[id].(cancelRequested := true)] else t
    case Finalize(id, status, axes) =>
      if id < |t| && t[id].status.Running?
      then t[id := t[id].(status := status, axes := axes, trustworthy := Trusts(axes), cancelRequested := false)]
      else t
    case FailIfRunning(id) =>
      if id < |t| && t[id].status.Running? then t[id := Demoted(t[id])] else t
    case MarkFailed(id) =>
      if id < |t| then t[id := Demoted(t[id])] else t
    case MarkCancelled(id) =>
      if id < |t| && t[id].trustworthy
      then t[id := t[id].(status := Failed, axes := t[id].axes.(degraded := true), trustworthy := false)] else t
  }

  /** A finished review carries a finished status. */
  predicate Legal(e: Event)
  {
    e.Finalize? ==> e.status == Done || e.status == Failed
  }

  function Replay(log: seq<Event>): Table
  {
    if log == [] then [] else Apply(Replay(log[..|log| - 1]), log[|log| - 1])
  }

  ghost predicate LegalLog(log: seq<Event>)
  {
    forall k :: 0 <= k < |log| ==> Legal(log[k])
  }

  lemma ReplaySnoc(log: seq<Event>, e: Event)
    ensures Replay(log + [e]) == Apply(Replay(log), e)
    ensures LegalLog(log) && Legal(e) ==> LegalLog(log + [e])
  {
    assert (log + [e])[..|log|] == log;
  }

  // ------------------------------------------------------ what every step keeps

  /** Stored trust is the axes' verdict, and nothing in flight or retired is trusted. */
  predicate Consistent(r: Row)
  {
    && r.trustworthy == Trusts(r.axes)
    && (r.status.Running? || r.status.Superseded? ==> !r.trustworthy)
    && (r.status.Superseded? ==> r.supersededBy.Some?)
  }

  /** The one-way life of a row: identity fixed, no way back to running, trust only ever gained by finishing. */
  predicate Lives(a: Row, b: Row)
  {
    && (a.branch, a.diff, a.base) == (b.branch, b.diff, b.base)
    && (!a.status.Running? ==> !b.status.Running? && (b.trustworthy ==> a.trustworthy) && (b == a || b.status.Failed?)
                                 && b.supersededBy == a.supersededBy)
  }

  lemma RowStep(t: Table, e: Event, i: nat)
    requires i < |t| && Legal(e) && Consistent(t[i])
    ensures |t| <= |Apply(t, e)| <= |t| + 1
    ensures Consistent(Apply(t, e)[i]) && Lives(t[i], Apply(t, e)[i])
  {
  }

  /** A row still running is the newest of its branch. */
  ghost predicate OneRunning(t: Table)
  {
    forall i: nat, j: nat :: i < j < |t| && t[i].branch == t[j].branch ==> !t[i].status.Running?
  }

  ghost predicate Safe(t: Table)
  {
    OneRunning(t) && forall i: nat :: i < |t| ==> Consistent(t[i])
  }

  lemma SafeStep(t: Table, e: Event)
    requires Safe(t) && Legal(e)
    ensures Safe(Apply(t, e))
  {
    forall i: nat | i < |Apply(t, e)|
      ensures Consistent(Apply(t, e)[i])
    {
      if i < |t| {
        RowStep(t, e, i);
      }
    }
    forall i: nat, j: nat | i < j < |Apply(t, e)| && Apply(t, e)[i].branch == Apply(t, e)[j].branch
      ensures !Apply(t, e)[i].status.Running?
    {
      RowStep(t, e, i);
      if j < |t| {
        RowStep(t, e, j);
      }
    }
  }

  /** In every history, any two running rows of one branch are the same row, and it is the branch's newest. */
  lemma {:induction false} AlwaysSafe(log: seq<Event>)
    requires LegalLog(log)
    ensures Safe(Replay(log))
  {
    if log != [] {
      var front := log[..|log| - 1];
      AlwaysSafe(front);
      SafeStep(Replay(front), log[|log| - 1]);
    }
  }

  // --------------------------------------------------------------- superseded

  /**
   * Why the unconditional door matters: a demotion whose guard was read while the row still ran,
   * and which commits after a newer push, rewrites a superseded row.
   */
  lemma LateDemotionOverwrites()
    ensures var log := [Reserve(0, 0, 0, false), Reserve(0, 1, 0, false)];
            Replay(log)[0].status == Superseded && Replay(log + [MarkFailed(0)])[0].status == Failed
            && Replay(log[..1])[0].status == Running
  {
    var a, b := Reserve(0, 0, 0, false), Reserve(0, 1, 0, false);
    ReplaySnoc([], a);
    ReplaySnoc([a], b);
    ReplaySnoc([a, b], MarkFailed(0));
    assert [] + [a] == [a];
    assert [a] + [b] == [a, b] && [a, b][..1] == [a];
    var t := Replay([a]);
    assert t == [Fresh(a)];
    assert t[..0] == [];
    assert Newest(t, 1).None?;
  }

  function At(log: seq<Event>, k: nat): Table
    requires k <= |log|
  {
    Replay(log[..k])
  }

  lemma AtStep(log: seq<Event>, k: nat)
    requires k < |log|
    ensures At(log, k + 1) == Apply(At(log, k), log[k])
  {
    assert log[..k + 1] == log[..k] + [log[k]];
    ReplaySnoc(log[..k], log[k]);
  }

  lemma LivesTrans(a: Row, b: Row, c: Row)
    requires Lives(a, b) && Lives(b, c)
    ensures Lives(a, c)
  {
  }

  lemma HistoryStep(log: seq<Event>, k: nat, i: nat)
    requires LegalLog(log) && k < |log| && i < |At(log, k)|
    ensures |At(log, k)| <= |At(log, k + 1)| && Lives(At(log, k)[i], At(log, k + 1)[i])
  {
    AlwaysSafe(log[..k]);
    AtStep(log, k);
    RowStep(At(log, k), log[k], i);
  }

  /** Over any stretch of any history a row lives its one-way life. */
  lemma {:induction false} RowHistory(log: seq<Event>, a: nat, b: nat, i: nat)
    requires LegalLog(log) && a <= b <= |log| && i < |At(log, a)|
    ensures |At(log, a)| <= |At(log, b)| && Lives(At(log, a)[i], At(log, b)[i])
    decreases b
  {
    if a < b {
      RowHistory(log, a, b - 1, i);
      HistoryStep(log, b - 1, i);
      LivesTrans(At(log, a)[i], At(log, b - 1)[i], At(log, b)[i]);
    }
  }

  /** Nobody demotes row i unconditionally in this stretch of the history. */
  ghost predicate Undemoted(log: seq<Event>, k: nat, m: nat, i: nat)
    requires m <= |log|
  {
    forall n :: k <= n < m ==> log[n] != MarkFailed(i)
  }

  lemma UndemotedStep(log: seq<Event>, k: nat, m: nat, i: nat)
    requires k < m <= |log|
    ensures Undemoted(log, k, m, i) <==> Undemoted(log, k, m - 1, i) && log[m - 1] != MarkFailed(i)
  {
  }

  lemma OverStep(t: Table, e: Event, i: nat)
    requires i < |t| && Consistent(t[i]) && Legal(e)
    ensures t[i].status.Superseded? ==>
              |t| <= |Apply(t, e)| && if e == MarkFailed(i) then Apply(t, e)[i].status.Failed? else Apply(t, e)[i] == t[i]
    ensures t[i].status.Failed? ==> |t| <= |Apply(t, e)| && Apply(t, e)[i].status.Failed?
  {
    RowStep(t, e, i);
  }

  /**
   * Over any stretch of any history, a superseded row stays as it is exactly as long as nobody demotes
   * it unconditionally; what a late worker finalizes, fails or cancels leaves it alone.
   */
  lemma {:induction false} SupersededExactly(log: seq<Event>, k: nat, m: nat, i: nat)
    requires LegalLog(log) && k <= m <= |log| && i < |At(log, k)| && At(log, k)[i].status.Superseded?
    ensures i < |At(log, m)|
    ensures if Undemoted(log, k, m, i) then At(log, m)[i] == At(log, k)[i] else At(log, m)[i].status.Failed?
    decreases m
  {
    if k < m {
      SupersededExactly(log, k, m - 1, i);
      UndemotedStep(log, k, m, i);
      OverTurn(log, m - 1, i);
    }
  }

  lemma OverTurn(log: seq<Event>, n: nat, i: nat)
    requires LegalLog(log) && n < |log| && i < |At(log, n)|
    ensures i < |At(log, n + 1)|
    ensures At(log, n)[i].status.Superseded? ==>
              if log[n] == MarkFailed(i) then At(log, n + 1)[i].status.Failed? else At(log, n + 1)[i] == At(log, n)[i]
    ensures At(log, n)[i].status.Failed? ==> At(log, n + 1)[i].status.Failed?
  {
    AlwaysSafe(log[..n]);
    AtStep(log, n);
    OverStep(At(log, n), log[n], i);
  }

  /**
   * Only the newest of overlapping reservations can end reviewed: a row still running when a newer
   * push of its branch is reserved is superseded by that very row, and is never trusted or done afterwards.
   */
  lemma NewestWins(log: seq<Event>, k: nat, b: nat, i: nat)
    requires LegalLog(log) && k < b <= |log| && log[k].Reserve?
    requires i < |At(log, k)| && RunningOn(At(log, k)[i], log[k].branch)
    requires SuppressedBy(At(log, k), log[k]).None?
    ensures |At(log, k + 1)| == |At(log, k)| + 1
    ensures At(log, k + 1)[i].status.Superseded? && At(log, k + 1)[i].supersededBy == Some(|At(log, k)|)
    ensures RunningOn(At(log, k + 1)[|At(log, k)|], log[k].branch)
    ensures i < |At(log, b)| && (At(log, b)[i].status.Superseded? || At(log, b)[i].status.Failed?)
    ensures !At(log, b)[i].trustworthy && At(log, b)[i].supersededBy == Some(|At(log, k)|)
  {
    AtStep(log, k);
    AlwaysSafe(log[..k + 1]);
    RowHistory(log, k + 1, b, i);
  }

  /** A skipped push leaves the table alone, and names a finished, trustworthy review of the same diff and base. */
  lemma SuppressionIsCertified(log: seq<Event>, e: Event)
    requires LegalLog(log) && e.Reserve?
    ensures var t := Replay(log);
            SuppressedBy(t, e).Some? ==>
              && Apply(t, e) == t
              && var r := t[SuppressedBy(t, e).value];
                 (r.status.Done? || r.status.Failed?) && Trusts(r.axes) && r.diff == e.diff && r.base == e.base
  {
    AlwaysSafe(log);
  }

  // ------------------------------------------------------- the dispatcher's side

  /** Nobody attaches a pid to row `id` in this stretch of the history. */
  ghost predicate Unattached(log: seq<Event>, a: nat, b: nat, id: nat)
    requires b <= |log|
  {
    forall k :: a <= k < b ==> !(log[k].AttachPid? && log[k].id == id)
  }

  /**
   * A dispatcher that attaches the pid of the worker it spawned is refused exactly when its
   * reservation is already over: superseded by a newer push, or settled by someone else.
   */
  lemma RefusedMeansOver(log: seq<Event>, k: nat, m: nat, pid: nat)
    requires k < m <= |log| && log[k].Reserve? && SuppressedBy(At(log, k), log[k]).None?
    requires Unattached(log, k + 1, m, |At(log, k)|)
    ensures var id := |At(log, k)|;
            id < |At(log, m)| && At(log, m)[id].pid.None?
            && (Apply(At(log, m), AttachPid(id, pid))[id].pid == Some(pid) <==> At(log, m)[id].status.Running?)
    decreases m
  {
    StillPidless(log, k, m);
    AttachStep(At(log, m), |At(log, k)|, pid);
  }

  lemma AttachStep(t: Table, id: nat, pid: nat)
    requires id < |t| && t[id].pid.None?
    ensures id < |Apply(t, AttachPid(id, pid))|
    ensures Apply(t, AttachPid(id, pid))[id].pid == Some(pid) <==> t[id].status.Running?
  {
  }

  lemma {:induction false} StillPidless(log: seq<Event>, k: nat, m: nat)
    requires k < m <= |log| && log[k].Reserve? && SuppressedBy(At(log, k), log[k]).None?
    requires Unattached(log, k + 1, m, |At(log, k)|)
    ensures |At(log, k)| < |At(log, m)| && At(log, m)[|At(log, k)|].pid.None?
    decreases m
  {
    AtStep(log, m - 1);
    if m > k + 1 {
      StillPidless(log, k, m - 1);
      PidStep(At(log, m - 1), log[m - 1], |At(log, k)|);
    }
  }

  lemma PidStep(t: Table, e: Event, i: nat)
    requires i < |t| && t[i].pid.None? && !(e.AttachPid? && e.id == i)
    ensures i < |Apply(t, e)| && Apply(t, e)[i].pid.None?
  {
  }
}
