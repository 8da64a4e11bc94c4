/** The admission table: rows, atomic store calls, and what every log of calls keeps. */
module Admission {

  datatype Class = ReviewFg | ReviewMachine | Provider(pool: string)

  datatype Status = Queued | Admitted | Running | Released | Expired | Rejected

  predicate Holding(s: Status) { s == Admitted || s == Running }

  predicate Terminal(s: Status) { s == Released || s == Expired || s == Rejected }

  /** One row. Its index in the table is its rowid and stands for its id; pid 0 is "no pid". */
  datatype Row = Row(cls: Class, scope: string, queuedAt: int, pid: nat, status: Status, limit: nat)

  type Table = seq<Row>

  predicate Peer(a: Row, cls: Class, scope: string) { a.cls == cls && a.scope == scope }

  /** `capacity_limit or 1`. */
  function Limit(r: Row): nat { if r.limit == 0 then 1 else r.limit }

  predicate Shared(cls: Class) { cls == ReviewFg || cls == ReviewMachine }

  // ------------------------------------------------------- the FIFO rule

  /** A waiter as the pure rule sees it. */
  datatype View = View(id: nat, status: Status, queuedAt: int, order: nat)

  predicate Before(a: View, b: View)
  {
    a.queuedAt < b.queuedAt
    || (a.queuedAt == b.queuedAt && (a.order < b.order || (a.order == b.order && a.id < b.id)))
  }

  function HolderViews(views: seq<View>): nat
  {
    if views == [] then 0
    else HolderViews(views[..|views| - 1]) + (if Holding(views[|views| - 1].status) then 1 else 0)
  }

  /** The least queued view, as sorting by the key puts it first. */
  function FirstQueued(views: seq<View>): (r: seq<View>)
    ensures |r| <= 1
  {
    if views == [] then []
    else
      var v := views[|views| - 1];
      var rest := FirstQueued(views[..|views| - 1]);
      if v.status == Queued && (rest == [] || Before(v, rest[0])) then [v] else rest
  }

  function DecideAdmit(waiter: nat, views: seq<View>, capacity: int): bool
  {
    capacity >= 1
    && HolderViews(views) < capacity
    && FirstQueued(views) != [] && FirstQueued(views)[0].id == waiter
  }

  /** The active rows of one class and scope, in rowid order. */
  function Views(t: Table, cls: Class, scope: string): (r: seq<View>)
  {
    if t == [] then []
    else
      var n := |t| - 1;
      var row := t[n];
      Views(t[..n], cls, scope)
      + (if Peer(row, cls, scope) && !Terminal(row.status) then [View(n, row.status, row.queuedAt, n)] else [])
  }

  function Holders(t: Table, cls: Class, scope: string): set<nat>
  {
    set i: nat | i < |t| && Peer(t[i], cls, scope) && Holding(t[i].status)
  }

  /** Row i precedes row j in the queue order. */
  predicate Precedes(t: Table, i: nat, j: nat)
    requires i < |t| && j < |t|
  {
    t[i].queuedAt < t[j].queuedAt || (t[i].queuedAt == t[j].queuedAt && i < j)
  }

  /** Row j is queued and no queued peer precedes it. */
  ghost predicate IsHead(t: Table, j: nat)
  {
    && j < |t| && t[j].status == Queued
    && forall i: nat :: i < |t| && t[i].status == Queued && Peer(t[i], t[j].cls, t[j].scope) ==> !Precedes(t, i, j)
  }

  predicate Holds(row: Row, cls: Class, scope: string)
  {
    Peer(row, cls, scope) && Holding(row.status)
  }

  lemma ViewsStep(t: Table, cls: Class, scope: string)
    requires t != []
    ensures var n := |t| - 1;
            HolderViews(Views(t, cls, scope))
            == HolderViews(Views(t[..n], cls, scope)) + (if Holds(t[n], cls, scope) then 1 else 0)
  {
    var n := |t| - 1;
    var rest := Views(t[..n], cls, scope);
    if Peer(t[n], cls, scope) && !Terminal(t[n].status) {
      assert Views(t, cls, scope)[..|rest|] == rest;
    } else {
      assert Views(t, cls, scope) == rest;
    }
  }

  lemma HoldersOneLonger(t: Table, cls: Class, scope: string)
    requires t != []
    ensures var n := |t| - 1;
            |Holders(t, cls, scope)| == |Holders(t[..n], cls, scope)| + (if Holds(t[n], cls, scope) then 1 else 0)
  {
    var n := |t| - 1;
    var more := if Holds(t[n], cls, scope) then {n} else {};
    forall i: nat
      ensures i in Holders(t, cls, scope) <==> i in Holders(t[..n], cls, scope) + more
    {
      HolderOneLonger(t, cls, scope, i);
    }
    assert Holders(t, cls, scope) == Holders(t[..n], cls, scope) + more;
  }

  lemma HolderOneLonger(t: Table, cls: Class, scope: string, i: nat)
    requires t != []
    ensures i in Holders(t, cls, scope)
            <==> i in Holders(t[..|t| - 1], cls, scope) || (i == |t| - 1 && Holds(t[|t| - 1], cls, scope))
  {
  }

  lemma {:induction false} HolderViewsCount(t: Table, cls: Class, scope: string)
    ensures HolderViews(Views(t, cls, scope)) == |Holders(t, cls, scope)|
  {
    if t != [] {
      HolderViewsCount(t[..|t| - 1], cls, scope);
      ViewsStep(t, cls, scope);
      HoldersOneLonger(t, cls, scope);
    } else {
      assert Holders(t, cls, scope) == {};
    }
  }

  /** FirstQueued picks exactly the queue head. */
  lemma {:induction false} FirstQueuedIsHead(t: Table, cls: Class, scope: string)
    ensures var q := FirstQueued(Views(t, cls, scope));
            if q == [] then forall i: nat :: i < |t| && Peer(t[i], cls, scope) ==> t[i].status != Queued
            else q[0].id < |t| && Peer(t[q[0].id], cls, scope) && IsHead(t, q[0].id)
                 && q[0] == View(q[0].id, Queued, t[q[0].id].queuedAt, q[0].id)
  {
    if t != [] {
      var n := |t| - 1;
      FirstQueuedIsHead(t[..n], cls, scope);
      FirstQueuedStep(t, cls, scope);
      var q := FirstQueued(Views(t[..n], cls, scope));
      var joins := Peer(t[n], cls, scope) && t[n].status == Queued;
      if joins && (q == [] || Before(View(n, Queued, t[n].queuedAt, n), q[0])) {
        NewHead(t, cls, scope, q);
      } else if q != [] {
        HeadOneLonger(t, q[0].id);
      }
    }
  }

  /** A new last row that precedes the old head, or meets no other waiter, is the head. */
  lemma NewHead(t: Table, cls: Class, scope: string, q: seq<View>)
    requires t != [] && Peer(t[|t| - 1], cls, scope) && t[|t| - 1].status == Queued
    requires var front := t[..|t| - 1];
             if q == [] then forall i: nat :: i < |front| && Peer(front[i], cls, scope) ==> front[i].status != Queued
             else q[0].id < |front| && Peer(front[q[0].id], cls, scope) && IsHead(front, q[0].id)
                  && t[|t| - 1].queuedAt < front[q[0].id].queuedAt
    ensures IsHead(t, |t| - 1)
  {
    var n := |t| - 1;
    assert forall i :: 0 <= i < n ==> t[..n][i] == t[i];
    forall i: nat | i < |t| && t[i].status == Queued && Peer(t[i], cls, scope)
      ensures !Precedes(t, i, n)
    {
      if i < n && q != [] {
        assert !Precedes(t[..n], i, q[0].id);
      }
    }
  }

  /** The least queued view is the old one, or the new last row if that comes first. */
  lemma FirstQueuedStep(t: Table, cls: Class, scope: string)
    requires t != []
    ensures var n := |t| - 1;
            var q := FirstQueued(Views(t[..n], cls, scope));
            var v := View(n, Queued, t[n].queuedAt, n);
            FirstQueued(Views(t, cls, scope))
            == if Peer(t[n], cls, scope) && t[n].status == Queued && (q == [] || Before(v, q[0])) then [v] else q
  {
    var n := |t| - 1;
    var rest := Views(t[..n], cls, scope);
    if Peer(t[n], cls, scope) && !Terminal(t[n].status) {
      assert Views(t, cls, scope)[..|rest|] == rest;
    } else {
      assert Views(t, cls, scope) == rest;
    }
  }

  /** A head stays the head beside a last row that is no queued peer, or does not precede it. */
  lemma HeadOneLonger(t: Table, j: nat)
    requires t != [] && IsHead(t[..|t| - 1], j)
    ensures (t[|t| - 1].status != Queued || !Peer(t[|t| - 1], t[j].cls, t[j].scope) || !Precedes(t, |t| - 1, j)) ==> IsHead(t, j)
  {
    var front := t[..|t| - 1];
    assert forall i :: 0 <= i < |front| ==> front[i] == t[i];
  }

  lemma HeadUnique(t: Table, i: nat, j: nat)
    requires IsHead(t, i) && IsHead(t, j) && Peer(t[i], t[j].cls, t[j].scope)
    ensures i == j
  {
  }

  /** The rule admits exactly the queue head, and only under capacity. */
  lemma DecideAdmitExactly(t: Table, cls: Class, scope: string, id: nat, capacity: int)
    requires id < |t| && Peer(t[id], cls, scope)
    ensures DecideAdmit(id, Views(t, cls, scope), capacity)
       <==> capacity >= 1 && |Holders(t, cls, scope)| < capacity && IsHead(t, id)
  {
    HolderViewsCount(t, cls, scope);
    FirstQueuedIsHead(t, cls, scope);
    if IsHead(t, id) {
      HeadUnique(t, id, FirstQueued(Views(t, cls, scope))[0].id);
    }
  }

  // ------------------------------------------------------ atomic store calls

  /** What reclaim observes about the process behind a pid. */
  datatype Observation = Observation(alive: bool, exited: bool, reused: bool)

  type Observer = nat -> Observation

  datatype Reason = StalePidDead | StaleAge

  /** `should_reclaim_admission`; `aged` says the age is known and past the ceiling. */
  function ShouldReclaim(status: Status, pid: nat, alive: bool, aged: bool): (r: seq<Reason>)
    ensures |r| <= 1
    ensures r == [StalePidDead] <==> pid > 0 && !alive
    ensures r == [StaleAge] <==> (pid > 0 ==> alive) && aged && (Holding(status) || pid == 0)
  {
    if pid > 0 && !alive then [StalePidDead]
    else if !aged then []
    else if Holding(status) then [StaleAge]
    else if pid == 0 then [StaleAge]
    else []
  }

  /** The reclaim decision for one active row, without an injected liveness probe. */
  function ReclaimReason(row: Row, o: Observation, aged: bool): (r: seq<Reason>)
    ensures |r| <= 1
  {
    if row.pid > 0 && o.alive && o.exited then [StalePidDead]
    else if row.pid > 0 && o.alive && row.cls == ReviewMachine then (if o.reused then [StalePidDead] else [])
    else ShouldReclaim(row.status, row.pid, o.alive, aged)
  }

  datatype Event =
    | Enqueue(cls: Class, scope: string, queuedAt: int, pid: nat)
    | TryAdmit(id: nat, capacity: int)
    | ForceAdmit(id: nat)
    | Start(id: nat)
    | Finish(id: nat, status: Status)
    | Reclaim(cls: Class, scope: string, observe: Observer, aged: set<nat>)

  /** The capacity after tightening by every current holder's own declared limit. */
  function Floor(t: Table, cls: Class, scope: string, capacity: int): int
  {
    if t == [] then capacity
    else
      var n := |t| - 1;
      var rest := Floor(t[..n], cls, scope, capacity);
      if Peer(t[n], cls, scope) && Holding(t[n].status) && Limit(t[n]) < rest then Limit(t[n]) else rest
  }

  function EffectiveCapacity(t: Table, cls: Class, scope: string, capacity: int): int
  {
    if Shared(cls) then Floor(t, cls, scope, capacity) else capacity
  }

  function Reclaimed(t: Table, cls: Class, scope: string, observe: Observer, aged: set<nat>): (r: Table)
    ensures |r| == |t|
  {
    if t == [] then []
    else
      var n := |t| - 1;
      var row := t[n];
      Reclaimed(t[..n], cls, scope, observe, aged)
      + [if Peer(row, cls, scope) && !Terminal(row.status)
            && ReclaimReason(row, observe(row.pid), n in aged) != []
         then row.(status := Rejected) else row]
  }

  predicate CanAdmit(t: Table, id: nat, capacity: int)
  {
    && capacity >= 1 && id < |t| && t[id].status == Queued
    && DecideAdmit(id, Views(t, t[id].cls, t[id].scope), EffectiveCapacity(t, t[id].cls, t[id].scope, capacity))
  }

  predicate CanForce(t: Table, id: nat)
  {
    && id < |t| && t[id].status == Queued
    && (t[id].cls == ReviewFg ==> |Holders(t, ReviewFg, t[id].scope)| == 0)
  }

  /** One store call as a function of the table. */
  function Apply(t: Table, e: Event): Table
  {
    match e
    case Enqueue(cls, scope, at, pid) => t + [Row(cls, scope, at, pid, Queued, 0)]
    case TryAdmit(id, capacity) =>
      if CanAdmit(t, id, capacity)
      then t[id := t[id].(status := Admitted, limit := if Shared(t[id].cls) then capacity as nat else 0)]
      else t
    case ForceAdmit(id) =>
      if CanForce(t, id)
      then t[id := t[id].(status := Admitted, limit := if t[id].cls == ReviewFg then 1 else t[id].limit)]
      else t
    case Start(id) =>
      if id < |t| && !Terminal(t[id].status) then t[id := t[id].(status := Running)] else t
    case Finish(id, status) =>
      if id < |t| && !Terminal(t[id].status) && Terminal(status) then t[id := t[id].(status := status)] else t
    case Reclaim(cls, scope, observe, aged) => Reclaimed(t, cls, scope, observe, aged)
  }

  /** The discipline of the callers: start only what was admitted, force only review-fg. */
  predicate Legal(t: Table, e: Event)
  {
    match e
    case Start(id) => id < |t| && t[id].status != Queued
    case ForceAdmit(id) => id < |t| && t[id].cls == ReviewFg
    case _ => true
  }

  function Replay(log: seq<Event>): Table
  {
    if log == [] then [] else Apply(Replay(log[..|log| - 1]), log[|log| - 1])
  }

  ghost predicate LegalLog(log: seq<Event>)
  {
    log == [] || (LegalLog(log[..|log| - 1]) && Legal(Replay(log[..|log| - 1]), log[|log| - 1]))
  }

  lemma ReplaySnoc(log: seq<Event>, e: Event)
    ensures Replay(log + [e]) == Apply(Replay(log), e)
    ensures LegalLog(log + [e]) <==> LegalLog(log) && Legal(Replay(log), e)
  {
    assert (log + [e])[..|log|] == log;
  }

  lemma {:induction false} FloorExactly(t: Table, cls: Class, scope: string, capacity: int, k: int)
    ensures k < Floor(t, cls, scope, capacity)
       <==> k < capacity && forall h :: h in Holders(t, cls, scope) ==> k < Limit(t[h])
  {
    if t != [] {
      var n := |t| - 1;
      FloorExactly(t[..n], cls, scope, capacity, k);
      var old', new' := Holders(t[..n], cls, scope), Holders(t, cls, scope);
      assert forall h :: h in old' ==> h in new' && t[h] == t[..n][h];
      assert forall h :: h in new' ==> h == n || h in old';
    }
  }

  lemma {:induction false} ReclaimedAt(t: Table, cls: Class, scope: string, observe: Observer, aged: set<nat>, i: nat)
    requires i < |t|
    ensures Reclaimed(t, cls, scope, observe, aged)[i]
         == if Peer(t[i], cls, scope) && !Terminal(t[i].status) && ReclaimReason(t[i], observe(t[i].pid), i in aged) != []
            then t[i].(status := Rejected) else t[i]
  {
    var n := |t| - 1;
    if i < n {
      ReclaimedAt(t[..n], cls, scope, observe, aged, i);
    }
  }
}
