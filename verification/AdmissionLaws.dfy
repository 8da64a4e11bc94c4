/** Safety of the admission protocol over every interleaving of store calls. */
module AdmissionLaws {
  import opened Admission

  // ------------------------------------------------------------- row history

  /** Identity is fixed, terminal rows are frozen, and nothing is queued twice. */
  predicate Evolves(a: Row, b: Row)
  {
    && (a.cls, a.scope, a.queuedAt, a.pid) == (b.cls, b.scope, b.queuedAt, b.pid)
    && (Terminal(a.status) ==> b == a)
    && (b.status == Queued ==> a == b)
    && (Holding(b.status) && a.status != Queued ==> b.limit == a.limit)
  }

  lemma RowStep(t: Table, e: Event, i: nat)
    requires i < |t|
    ensures |t| <= |Apply(t, e)| && Evolves(t[i], Apply(t, e)[i])
  {
    if e.Reclaim? {
      ReclaimedAt(t, e.cls, e.scope, e.observe, e.aged, i);
    }
  }

  function At(log: seq<Event>, k: nat): Table
    requires k <= |log|
  {
    Replay(log[..k])
  }

  lemma AtStep(log: seq<Event>, k: nat)
    requires k < |log|
    ensures At(log, k + 1) == Apply(At(log, k), log[k])
  {
    assert log[..k + 1] == log[..k] + [log[k]];
    ReplaySnoc(log[..k], log[k]);
  }

  /** Terminal rows stay terminal, and every row's identity is permanent. */
  lemma {:induction false} RowHistory(log: seq<Event>, a: nat, b: nat, i: nat)
    requires a <= b <= |log| && i < |At(log, a)|
    ensures |At(log, a)| <= |At(log, b)| && Evolves(At(log, a)[i], At(log, b)[i])
    decreases b
  {
    if a < b {
      RowHistory(log, a, b - 1, i);
      RowStepAt(log, b - 1, i);
      EvolvesOn(At(log, a)[i], At(log, b - 1)[i], At(log, b)[i]);
    }
  }

  lemma RowStepAt(log: seq<Event>, n: nat, i: nat)
    requires n < |log| && i < |At(log, n)|
    ensures |At(log, n)| <= |At(log, n + 1)| && Evolves(At(log, n)[i], At(log, n + 1)[i])
  {
    AtStep(log, n);
    RowStep(At(log, n), log[n], i);
  }

  lemma EvolvesOn(a: Row, b: Row, c: Row)
    requires Evolves(a, b) && Evolves(b, c)
    ensures Evolves(a, c)
  {
  }

  lemma {:induction false} LegalPrefix(log: seq<Event>, k: nat)
    requires LegalLog(log) && k < |log|
    ensures LegalLog(log[..k]) && Legal(At(log, k), log[k])
    decreases |log|
  {
    var front := log[..|log| - 1];
    if k < |front| {
      LegalPrefix(front, k);
      assert front[..k] == log[..k];
    }
  }

  // ---------------------------------------------------------------- capacity

  /** No holder of a shared class ever has more company than it declared. */
  ghost predicate WithinLimits(t: Table)
  {
    forall h: nat :: h < |t| && Holding(t[h].status) && Shared(t[h].cls) ==>
      |Holders(t, t[h].cls, t[h].scope)| <= Limit(t[h])
  }

  lemma SubsetSize(a: set<nat>, b: set<nat>)
    requires a <= b
    ensures |a| <= |b|
  {
    if a != b {
      assert b == a + (b - a);
    }
  }

  /** The row an event admits, if any. */
  function AdmittedBy(t: Table, e: Event): (r: set<nat>)
    ensures |r| <= 1 && forall id :: id in r ==> id < |t| && t[id].status == Queued
  {
    match e
    case TryAdmit(id, capacity) => if CanAdmit(t, id, capacity) then {id} else {}
    case ForceAdmit(id) => if CanForce(t, id) then {id} else {}
    case _ => {}
  }

  /** Only an admission adds a holder. */
  lemma HoldersStep(t: Table, e: Event, cls: Class, scope: string)
    requires Legal(t, e)
    ensures Holders(Apply(t, e), cls, scope) <= Holders(t, cls, scope) + AdmittedBy(t, e)
  {
    forall h | h in Holders(Apply(t, e), cls, scope)
      ensures h in Holders(t, cls, scope) + AdmittedBy(t, e)
    {
      if e.Reclaim? {
        ReclaimedAt(t, e.cls, e.scope, e.observe, e.aged, h);
      }
    }
  }

  /** What an admission decision established about the table it read. */
  lemma AdmissionGuard(t: Table, e: Event, id: nat)
    requires AdmittedBy(t, e) == {id} && id < |t|
    requires Legal(t, e)
    ensures t[id].status == Queued
    ensures (e.TryAdmit? && e.id == id) || e == ForceAdmit(id)
    ensures e.TryAdmit? ==> e.capacity >= 1 && IsHead(t, id) && |Holders(t, t[id].cls, t[id].scope)| < e.capacity
    ensures e.TryAdmit? && Shared(t[id].cls) ==>
              forall h :: h in Holders(t, t[id].cls, t[id].scope) ==> |Holders(t, t[id].cls, t[id].scope)| < Limit(t[h])
    ensures e.ForceAdmit? ==> t[id].cls == ReviewFg && |Holders(t, ReviewFg, t[id].scope)| == 0
  {
    assert id in AdmittedBy(t, e);
    if e.TryAdmit? {
      var cap := EffectiveCapacity(t, t[id].cls, t[id].scope, e.capacity);
      DecideAdmitExactly(t, t[id].cls, t[id].scope, id, cap);
      FloorExactly(t, t[id].cls, t[id].scope, e.capacity, |Holders(t, t[id].cls, t[id].scope)|);
    }
  }

  lemma LimitsStep(t: Table, e: Event)
    requires WithinLimits(t) && Legal(t, e)
    ensures WithinLimits(Apply(t, e))
  {
    var t' := Apply(t, e);
    forall h: nat | h < |t'| && Holding(t'[h].status) && Shared(t'[h].cls)
      ensures |Holders(t', t'[h].cls, t'[h].scope)| <= Limit(t'[h])
    {
      LimitsStepAt(t, e, h);
    }
  }

  lemma LimitsStepAt(t: Table, e: Event, h: nat)
    requires WithinLimits(t) && Legal(t, e)
    requires h < |Apply(t, e)| && Holding(Apply(t, e)[h].status) && Shared(Apply(t, e)[h].cls)
    ensures |Holders(Apply(t, e), Apply(t, e)[h].cls, Apply(t, e)[h].scope)| <= Limit(Apply(t, e)[h])
  {
    assert h < |t|;
    RowStep(t, e, h);
    var cls, scope := t[h].cls, t[h].scope;
    var before, after := Holders(t, cls, scope), Holders(Apply(t, e), cls, scope);
    assert h in after;
    if after <= before {
      LimitsWithoutArrival(t, e, h);
    } else {
      var id :| id in after && id !in before;
      LimitsAfterArrival(t, e, cls, scope, id, h);
    }
  }

  /** Where nobody arrives, there is no less room. */
  lemma LimitsWithoutArrival(t: Table, e: Event, h: nat)
    requires WithinLimits(t) && h < |t| && Shared(t[h].cls) && Holding(Apply(t, e)[h].status)
    requires Holders(Apply(t, e), t[h].cls, t[h].scope) <= Holders(t, t[h].cls, t[h].scope)
    ensures |Holders(Apply(t, e), t[h].cls, t[h].scope)| <= Limit(Apply(t, e)[h])
  {
    RowStep(t, e, h);
    assert h in Holders(Apply(t, e), t[h].cls, t[h].scope);
    assert h in Holders(t, t[h].cls, t[h].scope);
    SubsetSize(Holders(Apply(t, e), t[h].cls, t[h].scope), Holders(t, t[h].cls, t[h].scope));
  }

  /** A new holder is the admitted row, and the limits left room for it. */
  lemma LimitsAfterArrival(t: Table, e: Event, cls: Class, scope: string, id: nat, h: nat)
    requires Legal(t, e) && Shared(cls)
    requires id in Holders(Apply(t, e), cls, scope) && id !in Holders(t, cls, scope)
    requires h in Holders(Apply(t, e), cls, scope) && h < |t|
    ensures |Holders(Apply(t, e), cls, scope)| <= Limit(Apply(t, e)[h])
  {
    var before, after := Holders(t, cls, scope), Holders(Apply(t, e), cls, scope);
    HoldersStep(t, e, cls, scope);
    assert AdmittedBy(t, e) == {id} by {
      SingletonOf(AdmittedBy(t, e), id);
    }
    RowStep(t, e, id);
    RowStep(t, e, h);
    SubsetSize(after, before + {id});
    assert h == id || h in before;
    LimitsAfterAdmission(t, e, id, h);
  }

  lemma SingletonOf(s: set<nat>, x: nat)
    requires x in s && |s| <= 1
    ensures s == {x}
  {
    assert |s - {x}| == |s| - 1;
  }

  lemma LimitsAfterAdmission(t: Table, e: Event, id: nat, h: nat)
    requires AdmittedBy(t, e) == {id} && Legal(t, e)
    requires id < |t| && h < |t| && Peer(t[id], t[h].cls, t[h].scope) && Shared(t[h].cls)
    requires h == id || Holding(t[h].status)
    ensures |Holders(t, t[h].cls, t[h].scope)| + 1 <= Limit(Apply(t, e)[h])
  {
    AdmissionGuard(t, e, id);
    if h != id {
      assert h in Holders(t, t[h].cls, t[h].scope);
    }
  }

  /** In every legal log, each holder's company stays within the limit it declared. */
  lemma {:induction false} LimitsHold(log: seq<Event>)
    requires LegalLog(log)
    ensures WithinLimits(Replay(log))
  {
    if log != [] {
      LimitsHold(log[..|log| - 1]);
      LimitsStep(Replay(log[..|log| - 1]), log[|log| - 1]);
    }
  }

  /** Every admission of the class and scope in the log offers at most `bound` slots. */
  ghost predicate OffersAtMost(log: seq<Event>, cls: Class, scope: string, bound: nat)
  {
    forall k :: 0 <= k < |log| ==>
      (log[k].TryAdmit? && log[k].id < |At(log, k)| && Peer(At(log, k)[log[k].id], cls, scope) ==> log[k].capacity <= bound)
      && (log[k].ForceAdmit? && log[k].id < |At(log, k)| && Peer(At(log, k)[log[k].id], cls, scope) ==> 1 <= bound)
  }

  /** Holders of a class and scope never exceed the largest capacity offered. */
  lemma {:induction false} HoldersWithinOffers(log: seq<Event>, cls: Class, scope: string, bound: nat)
    requires LegalLog(log) && OffersAtMost(log, cls, scope, bound)
    ensures |Holders(Replay(log), cls, scope)| <= bound
  {
    if log != [] {
      var n := |log| - 1;
      var front, e := log[..n], log[n];
      forall k | 0 <= k < n
        ensures At(front, k) == At(log, k) && front[k] == log[k]
      {
        assert front[..k] == log[..k];
      }
      HoldersWithinOffers(front, cls, scope, bound);
      OfferStep(Replay(front), e, cls, scope, bound);
    }
  }

  lemma OfferStep(t: Table, e: Event, cls: Class, scope: string, bound: nat)
    requires Legal(t, e) && |Holders(t, cls, scope)| <= bound
    requires e.TryAdmit? && e.id < |t| && Peer(t[e.id], cls, scope) ==> e.capacity <= bound
    requires e.ForceAdmit? && e.id < |t| && Peer(t[e.id], cls, scope) ==> 1 <= bound
    ensures |Holders(Apply(t, e), cls, scope)| <= bound
  {
    var before, after := Holders(t, cls, scope), Holders(Apply(t, e), cls, scope);
    HoldersStep(t, e, cls, scope);
    if after <= before {
      SubsetSize(after, before);
    } else {
      var id :| id in after && id !in before;
      RowStep(t, e, id);
      SingletonOf(AdmittedBy(t, e), id);
      AdmissionGuard(t, e, id);
      SubsetSize(after, before + {id});
    }
  }

  // -------------------------------------------------------------------- FIFO

  /** Step k of the log moves row i from queued to admitted. */
  ghost predicate AdmittedAt(log: seq<Event>, i: nat, k: nat)
  {
    && k < |log| && i < |At(log, k)| && i < |At(log, k + 1)|
    && At(log, k)[i].status == Queued && At(log, k + 1)[i].status == Admitted
  }

  lemma AdmittedIs(log: seq<Event>, i: nat, k: nat)
    requires AdmittedAt(log, i, k)
    ensures AdmittedBy(At(log, k), log[k]) == {i}
  {
    AtStep(log, k);
    if log[k].Reclaim? {
      ReclaimedAt(At(log, k), log[k].cls, log[k].scope, log[k].observe, log[k].aged, i);
    }
  }

  /**
   * FIFO over histories: of two admitted peers, the one that precedes the other and was
   * enqueued before the other's admission was admitted first. A forced admission is covered
   * when the row was still the head as it was forced.
   */
  lemma Fifo(log: seq<Event>, i: nat, ki: nat, j: nat, kj: nat)
    requires LegalLog(log)
    requires AdmittedAt(log, i, ki) && AdmittedAt(log, j, kj)
    requires i < |At(log, kj)| && Peer(At(log, kj)[i], At(log, kj)[j].cls, At(log, kj)[j].scope)
    requires Precedes(At(log, kj), i, j)
    requires log[kj].ForceAdmit? ==> IsHead(At(log, kj), j)
    ensures ki < kj
  {
    LegalPrefix(log, kj);
    AdmittedIs(log, j, kj);
    AdmissionGuard(At(log, kj), log[kj], j);
    assert At(log, kj)[i].status != Queued;
    if kj <= ki {
      RowHistory(log, kj, ki, i);
      assert false;
    }
  }

  /** Forcing row j after this log would let some admitted row be overtaken. */
  ghost predicate Overtakes(log: seq<Event>, j: nat, later: seq<Event>, i: nat, ki: nat)
  {
    var all := log + [ForceAdmit(j)] + later;
    && LegalLog(all)
    && i < |Replay(log)| && j < |Replay(log)|
    && Peer(Replay(log)[i], Replay(log)[j].cls, Replay(log)[j].scope)
    && Precedes(Replay(log), i, j)
    && AdmittedAt(all, j, |log|)
    && AdmittedAt(all, i, ki) && |log| < ki
  }

  lemma AtPrefix(log: seq<Event>, more: seq<Event>)
    ensures At(log + more, |log|) == Replay(log)
  {
    assert (log + more)[..|log|] == log;
  }

  /** A row that is still the head when it is forced overtakes nobody. */
  lemma HeadNeverOvertakes(log: seq<Event>, j: nat, later: seq<Event>, i: nat, ki: nat)
    requires IsHead(Replay(log), j)
    ensures !Overtakes(log, j, later, i, ki)
  {
    if Overtakes(log, j, later, i, ki) {
      var all := log + [ForceAdmit(j)] + later;
      assert all == log + ([ForceAdmit(j)] + later);
      AtPrefix(log, [ForceAdmit(j)] + later);
      Fifo(all, i, ki, j, |log|);
    }
  }

  /** After the forced row is released, the old head is admitted behind it. */
  lemma LateHead(t: Table, i: nat, j: nat)
    requires j < |t| && CanForce(t, j) && t[j].cls == ReviewFg
    requires IsHead(t, i) && i != j && Peer(t[i], ReviewFg, t[j].scope)
    ensures var t2 := Apply(Apply(t, ForceAdmit(j)), Finish(j, Released));
            |t2| == |t| && t2[i] == t[i] && CanAdmit(t2, i, 1)
  {
    var t1 := Apply(t, ForceAdmit(j));
    var t2 := Apply(t1, Finish(j, Released));
    assert t2 == t[j := t2[j]] && t2[j].status == Released;
    assert Holders(t2, ReviewFg, t[j].scope) <= Holders(t, ReviewFg, t[j].scope);
    assert IsHead(t2, i);
    FloorExactly(t2, ReviewFg, t[j].scope, 1, 0);
    DecideAdmitExactly(t2, ReviewFg, t[j].scope, i, EffectiveCapacity(t2, ReviewFg, t[j].scope, 1));
  }

  /**
   * The dual-hold path decides, takes the lock, and then forces: not one atomic step. Forcing
   * is fair exactly when the row is still the queue head at the moment it is forced.
   */
  lemma ForceFairExactly(log: seq<Event>, j: nat)
    requires LegalLog(log) && j < |Replay(log)| && Replay(log)[j].cls == ReviewFg && CanForce(Replay(log), j)
    ensures IsHead(Replay(log), j) <==> forall later, i, ki :: !Overtakes(log, j, later, i, ki)
  {
    var t := Replay(log);
    if IsHead(t, j) {
      forall later, i, ki
        ensures !Overtakes(log, j, later, i, ki)
      {
        HeadNeverOvertakes(log, j, later, i, ki);
      }
    } else {
      NotHeadOvertaken(log, j);
    }
  }

  /** A queued row that is not the head has the head before it. */
  lemma HeadBefore(t: Table, j: nat) returns (i: nat)
    requires j < |t| && t[j].status == Queued && !IsHead(t, j)
    ensures IsHead(t, i) && i != j && Peer(t[i], t[j].cls, t[j].scope) && Precedes(t, i, j)
  {
    FirstQueuedIsHead(t, t[j].cls, t[j].scope);
    i := FirstQueued(Views(t, t[j].cls, t[j].scope))[0].id;
    assert !Precedes(t, j, i);
  }

  /** A row forced while another heads the queue is overtaken in some continuation. */
  lemma NotHeadOvertaken(log: seq<Event>, j: nat)
    requires LegalLog(log) && j < |Replay(log)| && Replay(log)[j].cls == ReviewFg && CanForce(Replay(log), j)
    requires !IsHead(Replay(log), j)
    ensures exists later, i, ki :: Overtakes(log, j, later, i, ki)
  {
    var i := HeadBefore(Replay(log), j);
    OvertakeRun(log, i, j);
    assert Overtakes(log, j, [Finish(j, Released), TryAdmit(i, 1)], i, |log| + 2);
  }

  lemma OvertakeRun(log: seq<Event>, i: nat, j: nat)
    requires LegalLog(log) && j < |Replay(log)| && Replay(log)[j].cls == ReviewFg && CanForce(Replay(log), j)
    requires IsHead(Replay(log), i) && i != j && Peer(Replay(log)[i], ReviewFg, Replay(log)[j].scope)
    requires Precedes(Replay(log), i, j)
    ensures Overtakes(log, j, [Finish(j, Released), TryAdmit(i, 1)], i, |log| + 2)
  {
    var t := Replay(log);
    var n := |log|;
    var l1 := log + [ForceAdmit(j)];
    var l2 := l1 + [Finish(j, Released)];
    var all := l2 + [TryAdmit(i, 1)];
    assert all == log + [ForceAdmit(j)] + [Finish(j, Released), TryAdmit(i, 1)];
    LateHead(t, i, j);
    ReplaySnoc(log, ForceAdmit(j));
    ReplaySnoc(l1, Finish(j, Released));
    ReplaySnoc(l2, TryAdmit(i, 1));
    assert all[..n] == log && all[..n + 1] == l1 && all[..n + 2] == l2 && all[..n + 3] == all;
  }

  /** Concrete run: a waiter stamped earlier but inserted later is overtaken. */
  lemma DualHoldOvertakes()
    ensures var log := [Enqueue(ReviewFg, "repo", 5, 1), Enqueue(ReviewFg, "repo", 4, 2)];
            IsHead(At(log, 1), 0)
            && Overtakes(log, 0, [Finish(0, Released), TryAdmit(1, 1)], 1, 4)
  {
    var first, second := Enqueue(ReviewFg, "repo", 5, 1), Enqueue(ReviewFg, "repo", 4, 2);
    var log := [first] + [second];
    ReplaySnoc([], first);
    ReplaySnoc([first], second);
    assert [] + [first] == [first] == log[..1];
    var t := [Row(ReviewFg, "repo", 5, 1, Queued, 0), Row(ReviewFg, "repo", 4, 2, Queued, 0)];
    assert Replay(log) == t;
    assert Holders(t, ReviewFg, "repo") == {};
    assert IsHead(t, 1);
    OvertakeRun(log, 1, 0);
    assert log == [first, second];
  }

  /** With insertions stamped in order, a decided head stays the head until it leaves the queue. */
  lemma {:induction false} HeadPersists(log: seq<Event>, k: nat, m: nat, j: nat)
    requires k <= m <= |log| && IsHead(At(log, k), j)
    requires j < |At(log, m)| && At(log, m)[j].status == Queued
    requires forall n :: k <= n < m && log[n].Enqueue? ==> log[n].queuedAt >= At(log, k)[j].queuedAt
    ensures IsHead(At(log, m), j)
    decreases m
  {
    if k < m {
      QueuedBefore(log, k, m - 1, m, j);
      HeadPersists(log, k, m - 1, j);
      HeadAt(log, m - 1, j);
    }
  }

  /** A queued row was queued ever since it was there, with the same stamp. */
  lemma QueuedBefore(log: seq<Event>, a: nat, b: nat, c: nat, j: nat)
    requires a <= b <= c <= |log| && j < |At(log, a)|
    requires j < |At(log, c)| && At(log, c)[j].status == Queued
    ensures j < |At(log, b)| && At(log, b)[j].status == Queued && At(log, b)[j].queuedAt == At(log, a)[j].queuedAt
  {
    RowHistory(log, a, b, j);
    RowHistory(log, b, c, j);
  }

  lemma HeadAt(log: seq<Event>, n: nat, j: nat)
    requires n < |log| && IsHead(At(log, n), j)
    requires j < |At(log, n + 1)| && At(log, n + 1)[j].status == Queued
    requires log[n].Enqueue? ==> log[n].queuedAt >= At(log, n)[j].queuedAt
    ensures IsHead(At(log, n + 1), j)
  {
    AtStep(log, n);
    HeadStep(At(log, n), log[n], j);
  }

  /**
   * The dual-hold path as a whole: a row that the rule decided for, and that is still queued when it is
   * forced, overtakes nobody as long as nothing was stamped before it in between.
   */
  lemma DecidedForceIsFair(log: seq<Event>, k: nat, j: nat, later: seq<Event>, i: nat, ki: nat)
    requires k <= |log| && j < |At(log, k)| && At(log, k)[j].cls == ReviewFg
    requires DecideAdmit(j, Views(At(log, k), ReviewFg, At(log, k)[j].scope), 1)
    requires j < |Replay(log)| && Replay(log)[j].status == Queued
    requires forall n :: k <= n < |log| && log[n].Enqueue? ==> log[n].queuedAt >= At(log, k)[j].queuedAt
    ensures !Overtakes(log, j, later, i, ki)
  {
    DecideAdmitExactly(At(log, k), ReviewFg, At(log, k)[j].scope, j, 1);
    assert log[..|log|] == log;
    HeadPersists(log, k, |log|, j);
    HeadNeverOvertakes(log, j, later, i, ki);
  }

  lemma HeadStep(t: Table, e: Event, j: nat)
    requires IsHead(t, j) && j < |Apply(t, e)| && Apply(t, e)[j].status == Queued
    requires e.Enqueue? ==> e.queuedAt >= t[j].queuedAt
    ensures IsHead(Apply(t, e), j)
  {
    var t' := Apply(t, e);
    RowStep(t, e, j);
    forall i: nat | i < |t'| && t'[i].status == Queued && Peer(t'[i], t'[j].cls, t'[j].scope)
      ensures !Precedes(t', i, j)
    {
      if i < |t| {
        RowStep(t, e, i);
      }
    }
  }
}
