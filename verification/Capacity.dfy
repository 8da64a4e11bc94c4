/** The acquiring side of admission: polling loops racing every other process on one store. */
module Capacity {
  import opened Admission
  import opened AdmissionLaws

  const MACHINE_SCOPE := "*"

  // ------------------------------------------------------------- other processes

  /** The observation of a process that is in fact alive. */
  predicate Truthful(o: Observation)
  {
    o.alive && !o.exited && !o.reused
  }

  /** What another process may do: never act on my tickets, never misjudge my liveness. */
  predicate Foreign(e: Event, mine: set<nat>, pid: nat)
  {
    match e
    case Enqueue(_, _, _, _) => true
    case TryAdmit(id, _) => id !in mine
    case ForceAdmit(id) => id !in mine
    case Start(id) => id !in mine
    case Finish(id, _) => id !in mine
    case Reclaim(_, _, observe, _) => Truthful(observe(pid))
  }

  /** No age-based reclaim. */
  predicate Calm(e: Event)
  {
    e.Reclaim? ==> e.aged == {}
  }

  ghost predicate AllCalm(events: seq<Event>)
  {
    forall k :: 0 <= k < |events| ==> Calm(events[k])
  }

  /** My row after foreign steps: untouched, or a review-fg/provider holder reclaimed by age. */
  predicate Kept(a: Row, b: Row, calm: bool)
  {
    b == a || (b == a.(status := Rejected) && Holding(a.status) && a.cls != ReviewMachine && !calm)
  }

  lemma ForeignStep(t: Table, e: Event, mine: set<nat>, pid: nat, i: nat)
    requires i < |t| && i in mine && t[i].pid == pid > 0
    requires Foreign(e, mine, pid)
    ensures i < |Apply(t, e)| && Kept(t[i], Apply(t, e)[i], Calm(e))
  {
    if e.Reclaim? {
      ReclaimedAt(t, e.cls, e.scope, e.observe, e.aged, i);
    }
  }

  /** A live process's machine row survives anything others do, age reclaim included. */
  lemma MachineRowStable(t: Table, e: Event, mine: set<nat>, pid: nat, m: nat)
    requires m < |t| && m in mine && t[m].pid == pid > 0 && t[m].cls == ReviewMachine
    requires Foreign(e, mine, pid)
    ensures m < |Apply(t, e)| && Apply(t, e)[m] == t[m]
  {
    ForeignStep(t, e, mine, pid, m);
  }

  ghost predicate MineIn(t: Table, mine: set<nat>, pid: nat)
  {
    pid > 0 && forall i :: i in mine ==> i < |t| && t[i].pid == pid
  }

  ghost predicate MineKept(t: Table, t': Table, mine: set<nat>, calm: bool)
  {
    |t| <= |t'| && forall i :: i in mine ==> i < |t| && Kept(t[i], t'[i], calm)
  }

  // -------------------------------------------------------------------- store

  /** The admission table behind atomic calls; `log` records the calls in commit order. */
  class Store {
    var rows: Table
    ghost var log: seq<Event>

    ghost predicate Valid()
      reads this
    {
      rows == Replay(log) && LegalLog(log)
    }

    constructor ()
      ensures Valid() && rows == [] && log == []
    {
      rows, log := [], [];
    }

    ghost method Record(e: Event)
      requires Legal(Replay(log), e) && LegalLog(log)
      modifies this`log
      ensures log == old(log) + [e] && LegalLog(log) && Replay(log) == Apply(Replay(old(log)), e)
    {
      ReplaySnoc(log, e);
      log := log + [e];
    }

    method CapacityEnqueue(cls: Class, scope: string, queuedAt: int, pid: nat) returns (id: nat)
      requires Valid()
      modifies this
      ensures Valid() && log == old(log) + [Enqueue(cls, scope, queuedAt, pid)]
      ensures id == |old(rows)| && rows == old(rows) + [Row(cls, scope, queuedAt, pid, Queued, 0)]
    {
      id := |rows|;
      rows := rows + [Row(cls, scope, queuedAt, pid, Queued, 0)];
      Record(Enqueue(cls, scope, queuedAt, pid));
    }

    /** Admit when the FIFO rule allows it; `None` is the refusal. */
    method CapacityTryAdmit(id: nat, capacity: int) returns (status: seq<Status>)
      requires Valid() && id < |rows|
      modifies this
      ensures Valid() && log == old(log) + [TryAdmit(id, capacity)]
      ensures rows == Apply(old(rows), TryAdmit(id, capacity))
      ensures |status| <= 1 && (status != [] ==> status[0] == rows[id].status && status[0] != Queued)
      ensures status == [] ==> rows == old(rows)
    {
      Record(TryAdmit(id, capacity));
      status := [];
      if capacity < 1 {
        return;
      }
      var row := rows[id];
      if row.status != Queued {
        return [row.status];
      }
      var views := Views(rows, row.cls, row.scope);
      var effective := capacity;
      if Shared(row.cls) {
        effective := Floor(rows, row.cls, row.scope, capacity);
      }
      if DecideAdmit(id, views, effective) {
        rows := rows[id := row.(status := Admitted, limit := if Shared(row.cls) then capacity else 0)];
        status := [Admitted];
      }
    }

    method CapacityForceAdmit(id: nat) returns (status: seq<Status>)
      requires Valid() && id < |rows| && rows[id].cls == ReviewFg
      modifies this
      ensures Valid() && log == old(log) + [ForceAdmit(id)]
      ensures rows == Apply(old(rows), ForceAdmit(id))
      ensures |status| <= 1 && (status != [] ==> status[0] == rows[id].status && Holding(status[0]))
      ensures status == [] ==> rows == old(rows)
    {
      Record(ForceAdmit(id));
      var row := rows[id];
      if Holding(row.status) {
        return [row.status];
      }
      if row.status != Queued {
        return [];
      }
      if row.cls == ReviewFg && HolderViews(Views(rows, row.cls, row.scope)) > 0 {
        HolderViewsCount(rows, row.cls, row.scope);
        return [];
      }
      HolderViewsCount(rows, row.cls, row.scope);
      rows := rows[id := row.(status := Admitted, limit := if row.cls == ReviewFg then 1 else row.limit)];
      status := [Admitted];
    }

    method CapacityMarkStarted(id: nat) returns (status: Status)
      requires Valid() && id < |rows| && rows[id].status != Queued
      modifies this
      ensures Valid() && log == old(log) + [Start(id)]
      ensures rows == Apply(old(rows), Start(id)) && status == rows[id].status
    {
      Record(Start(id));
      if !Terminal(rows[id].status) {
        rows := rows[id := rows[id].(status := Running)];
      }
      status := rows[id].status;
    }

    method CapacityFinish(id: nat, end: Status) returns (status: Status)
      requires Valid() && id < |rows| && Terminal(end)
      modifies this
      ensures Valid() && log == old(log) + [Finish(id, end)]
      ensures rows == Apply(old(rows), Finish(id, end)) && status == rows[id].status && Terminal(status)
    {
      Record(Finish(id, end));
      if !Terminal(rows[id].status) {
        rows := rows[id := rows[id].(status := end)];
      }
      status := rows[id].status;
    }

    /** Reject every active row of the class and scope whose peer is gone or too old. */
    method CapacityReclaimStale(cls: Class, scope: string, observe: Observer, aged: set<nat>)
      requires Valid()
      modifies this
      ensures Valid() && log == old(log) + [Reclaim(cls, scope, observe, aged)]
      ensures rows == Reclaimed(old(rows), cls, scope, observe, aged)
    {
      var table, done: Table := rows, [];
      for k := 0 to |table|
        invariant rows == table && log == old(log) && done == Reclaimed(table[..k], cls, scope, observe, aged)
      {
        var row := table[k];
        ReclaimedSnoc(table, k, cls, scope, observe, aged);
        if Peer(row, cls, scope) && !Terminal(row.status)
           && ReclaimReason(row, observe(row.pid), k in aged) != []
        {
          row := row.(status := Rejected);
        }
        done := done + [row];
      }
      assert table[..|table|] == table;
      rows := done;
      Record(Reclaim(cls, scope, observe, aged));
    }

    /** Other processes run: each of `events` that is a legal step of another process takes effect. */
    method Interleave(events: seq<Event>, mine: set<nat>, pid: nat)
      requires Valid() && MineIn(rows, mine, pid)
      modifies this
      ensures Valid() && old(log) <= log
      ensures MineIn(rows, mine, pid) && MineKept(old(rows), rows, mine, AllCalm(events))
      ensures events == [] ==> rows == old(rows)
    {
      for k := 0 to |events|
        invariant Valid() && old(log) <= log && (events == [] ==> rows == old(rows))
        invariant MineIn(rows, mine, pid) && MineKept(old(rows), rows, mine, AllCalm(events))
      {
        var e := events[k];
        if Legal(rows, e) && Foreign(e, mine, pid) {
          ghost var was := rows;
          Commit(e, mine, pid);
          MineKeptMore(old(rows), was, rows, mine, AllCalm(events));
        }
      }
    }

    method Commit(e: Event, ghost mine: set<nat>, ghost pid: nat)
      requires Valid() && Legal(rows, e) && MineIn(rows, mine, pid) && Foreign(e, mine, pid)
      modifies this
      ensures Valid() && log == old(log) + [e]
      ensures MineIn(rows, mine, pid) && MineKept(old(rows), rows, mine, Calm(e))
    {
      ForeignSteps(rows, e, mine, pid);
      Take(e);
    }

    /** Any legal call takes effect at once. */
    method Take(e: Event)
      requires Valid() && Legal(rows, e)
      modifies this
      ensures Valid() && log == old(log) + [e] && rows == Apply(old(rows), e)
    {
      Record(e);
      rows := Apply(rows, e);
    }
  }

  lemma ReclaimedSnoc(t: Table, k: nat, cls: Class, scope: string, observe: Observer, aged: set<nat>)
    requires k < |t|
    ensures Reclaimed(t[..k + 1], cls, scope, observe, aged)
         == Reclaimed(t[..k], cls, scope, observe, aged)
            + [if Peer(t[k], cls, scope) && !Terminal(t[k].status) && ReclaimReason(t[k], observe(t[k].pid), k in aged) != []
               then t[k].(status := Rejected) else t[k]]
  {
    assert t[..k + 1][..k] == t[..k];
  }

  lemma ForeignSteps(t: Table, e: Event, mine: set<nat>, pid: nat)
    requires MineIn(t, mine, pid) && Foreign(e, mine, pid)
    ensures MineIn(Apply(t, e), mine, pid) && MineKept(t, Apply(t, e), mine, Calm(e))
  {
    forall i | i in mine
      ensures i < |Apply(t, e)| && Kept(t[i], Apply(t, e)[i], Calm(e))
    {
      ForeignStep(t, e, mine, pid, i);
    }
  }

  /** A call on one of my own tickets leaves my other tickets alone. */
  lemma OwnStep(t: Table, e: Event, others: set<nat>, pid: nat, id: nat)
    requires MineIn(t, others, pid) && id !in others
    requires e == TryAdmit(id, if e.TryAdmit? then e.capacity else 0) || e == ForceAdmit(id) || e == Start(id)
             || (e.Finish? && e.id == id) || e.Enqueue?
    ensures MineIn(Apply(t, e), others, pid) && MineKept(t, Apply(t, e), others, true)
  {
  }

  lemma MineKeptMore(a: Table, b: Table, c: Table, mine: set<nat>, calm: bool)
    requires MineKept(a, b, mine, calm) && (MineKept(b, c, mine, calm) || MineKept(b, c, mine, true))
    ensures MineKept(a, c, mine, calm)
  {
  }

  lemma MineKeptBoth(a: Table, b: Table, c: Table, mine: set<nat>, first: bool, second: bool)
    requires MineKept(a, b, mine, first) && MineKept(b, c, mine, second)
    ensures MineKept(a, c, mine, first && second)
  {
  }

  lemma MineKeptTrans(a: Table, b: Table, c: Table, mine: set<nat>, calm: bool)
    requires MineKept(a, b, mine, calm) && MineKept(b, c, mine, calm)
    ensures MineKept(a, c, mine, calm)
  {
  }

  // ------------------------------------------------------------------ tickets

  /** In-process handle for one capacity attempt. */
  class Ticket {
    const id: nat
    var status: Status
    var parent: Ticket?

    constructor (id: nat)
      ensures this.id == id && status == Queued && parent == null
    {
      this.id := id;
      status := Queued;
      parent := null;
    }
  }

  /** How an attempt ended; `Died` is the process killed in place. */
  datatype Outcome = Got | TimedOut | Cancelled | Errored | Died

  datatype Fault = NoFault | FaultBefore | FaultAfter | Killed

  /**
   * Everything outside the process during one turn of the polling loop: peers acting at each
   * point where the process is between store calls, clock readings, what reclaim observes,
   * the capacity resolved this turn, the foreground lock, and an exception or kill.
   */
  datatype Poll = Poll(
    top: int, bottom: int, cancelled: bool,
    peers: seq<Event>, peersAtLock: seq<Event>, peersBeforeStart: seq<Event>, peersAtEnd: seq<Event>,
    observe: Observer, aged: set<nat>,
    capacity: int, locked: bool, fault: Fault)

  ghost predicate Honest(script: seq<Poll>, pid: nat)
  {
    forall k :: 0 <= k < |script| ==> Truthful(script[k].observe(pid))
  }

  ghost predicate CalmPoll(p: Poll)
  {
    p.aged == {} && AllCalm(p.peers) && AllCalm(p.peersAtLock) && AllCalm(p.peersBeforeStart) && AllCalm(p.peersAtEnd)
  }

  ghost predicate CalmScript(script: seq<Poll>)
  {
    forall k :: 0 <= k < |script| ==> CalmPoll(script[k])
  }

  /** The ticket's row belongs to this process, class and scope. */
  predicate Owns(t: Table, id: nat, cls: Class, scope: string, pid: nat)
  {
    id < |t| && t[id].pid == pid && Peer(t[id], cls, scope)
  }

  /** The ticket is still in the queue, and the process knows it. */
  ghost predicate Waiting(store: Store, ticket: Ticket, cls: Class, scope: string, pid: nat)
    reads store, ticket
  {
    && store.Valid() && ticket.parent == null
    && Owns(store.rows, ticket.id, cls, scope, pid)
    && ticket.status == Queued == store.rows[ticket.id].status
  }

  /** What each ending leaves behind in the ticket's row. */
  ghost predicate Ended(store: Store, ticket: Ticket, cls: Class, scope: string, pid: nat, out: Outcome, calm: bool)
    reads store, ticket
  {
    && store.Valid() && ticket.parent == null
    && Owns(store.rows, ticket.id, cls, scope, pid)
    && var status := store.rows[ticket.id].status;
       match out
       case Got => ticket.status == status && (status == Running || (status == Rejected && cls != ReviewMachine && !calm))
       case Died => true
       case _ => ticket.status == status && Terminal(status)
  }

  /** Terminal transition of a ticket that has no parent. */
  method FinishOne(store: Store, ticket: Ticket, end: Status, others: set<nat>, pid: nat)
    requires store.Valid() && ticket.id < |store.rows| && Terminal(end)
    requires MineIn(store.rows, others, pid) && ticket.id !in others
    modifies store, ticket`status
    ensures store.Valid() && old(store.log) <= store.log
    ensures store.rows == Apply(old(store.rows), Finish(ticket.id, end))
    ensures ticket.status == store.rows[ticket.id].status && Terminal(ticket.status)
    ensures MineIn(store.rows, others, pid) && MineKept(old(store.rows), store.rows, others, true)
  {
    OwnStep(store.rows, Finish(ticket.id, end), others, pid, ticket.id);
    ticket.status := store.CapacityFinish(ticket.id, end);
  }

  /** `ticket.id` and the tickets the caller already holds. */
  ghost predicate Holds(store: Store, ticket: Ticket, held: set<nat>, pid: nat)
    reads store
  {
    MineIn(store.rows, held, pid) && ticket.id !in held && ticket.id < |store.rows|
  }

  /** Every other row is over. */
  ghost predicate Lone(t: Table, id: nat)
  {
    forall j :: 0 <= j < |t| && j != id ==> Terminal(t[j].status)
  }

  lemma LoneStart(t: Table, id: nat)
    requires id < |t|
    ensures Lone(t, id) ==> Lone(Apply(t, Start(id)), id)
  {
  }

  lemma LoneFinish(t: Table, id: nat, end: Status)
    requires id < |t|
    ensures Lone(t, id) ==> Lone(Apply(t, Finish(id, end)), id)
  {
  }

  lemma NothingToReclaim(t: Table, cls: Class, scope: string, observe: Observer, id: nat)
    requires Lone(t, id) && id < |t| && t[id].pid > 0 && Truthful(observe(t[id].pid))
    ensures Reclaimed(t, cls, scope, observe, {}) == t
  {
    forall i: nat | i < |t|
      ensures Reclaimed(t, cls, scope, observe, {})[i] == t[i]
    {
      ReclaimedAt(t, cls, scope, observe, {}, i);
    }
  }

  /** Alone in the table, a waiter is admitted to any capacity there is. */
  lemma LoneAdmits(t: Table, id: nat, capacity: int)
    requires Lone(t, id) && id < |t| && t[id].status == Queued && !Shared(t[id].cls)
    ensures CanAdmit(t, id, capacity) <==> capacity >= 1
  {
    assert Holders(t, t[id].cls, t[id].scope) == {};
    DecideAdmitExactly(t, t[id].cls, t[id].scope, id, capacity);
  }

  /** Nobody else acts during this turn, and nothing goes wrong. */
  predicate Solitary(p: Poll)
  {
    && !p.cancelled && p.fault == NoFault && p.aged == {}
    && p.peers == [] && p.peersBeforeStart == [] && p.peersAtEnd == []
  }

  /** Others act while this process waits on `ticket`. */
  method Yield(store: Store, ticket: Ticket, cls: Class, scope: string, pid: nat, held: set<nat>, events: seq<Event>)
    requires store.Valid() && Holds(store, ticket, held, pid) && Owns(store.rows, ticket.id, cls, scope, pid)
    modifies store
    ensures store.Valid() && old(store.log) <= store.log
    ensures Holds(store, ticket, held, pid) && Owns(store.rows, ticket.id, cls, scope, pid)
    ensures MineKept(old(store.rows), store.rows, held + {ticket.id}, AllCalm(events))
    ensures events == [] ==> store.rows == old(store.rows)
  {
    assert MineIn(store.rows, held + {ticket.id}, pid);
    store.Interleave(events, held + {ticket.id}, pid);
    assert ticket.id in held + {ticket.id};
  }

  /** Others act while this process waits in the queue: they leave its row there. */
  method YieldQueued(store: Store, ticket: Ticket, cls: Class, scope: string, pid: nat, held: set<nat>, events: seq<Event>)
    requires Waiting(store, ticket, cls, scope, pid) && Holds(store, ticket, held, pid)
    modifies store
    ensures old(store.log) <= store.log && Holds(store, ticket, held, pid) && Waiting(store, ticket, cls, scope, pid)
    ensures MineKept(old(store.rows), store.rows, held, AllCalm(events))
    ensures events == [] ==> store.rows == old(store.rows)
  {
    Yield(store, ticket, cls, scope, pid, held, events);
    assert ticket.id in held + {ticket.id};
  }

  /** This process's own reclaim, which judges its own liveness truthfully. */
  method ReclaimPeers(store: Store, ticket: Ticket, cls: Class, scope: string, pid: nat, held: set<nat>, p: Poll)
    requires store.Valid() && Holds(store, ticket, held, pid) && Owns(store.rows, ticket.id, cls, scope, pid)
    requires Truthful(p.observe(pid))
    modifies store
    ensures store.Valid() && old(store.log) <= store.log
    ensures Holds(store, ticket, held, pid) && Owns(store.rows, ticket.id, cls, scope, pid)
    ensures MineKept(old(store.rows), store.rows, held + {ticket.id}, p.aged == {})
    ensures p.aged == {} && Lone(old(store.rows), ticket.id) ==> store.rows == old(store.rows)
  {
    assert MineIn(store.rows, held + {ticket.id}, pid);
    if p.aged == {} && Lone(store.rows, ticket.id) {
      NothingToReclaim(store.rows, cls, scope, p.observe, ticket.id);
    }
    ForeignSteps(store.rows, Reclaim(cls, scope, p.observe, p.aged), held + {ticket.id}, pid);
    store.CapacityReclaimStale(cls, scope, p.observe, p.aged);
    assert ticket.id in held + {ticket.id};
  }

  /** What an admitted row may have become while others acted. */
  ghost predicate StillAdmitted(store: Store, ticket: Ticket, cls: Class, scope: string, pid: nat, calm: bool)
    reads store, ticket
  {
    && store.Valid() && ticket.parent == null && ticket.status == Admitted
    && Owns(store.rows, ticket.id, cls, scope, pid)
    && var status := store.rows[ticket.id].status;
       status == Admitted || (status == Rejected && cls != ReviewMachine && !calm)
  }

  /** The start of a ticket that has left the queue. */
  method StartOne(store: Store, ticket: Ticket, others: set<nat>, pid: nat)
    requires store.Valid() && ticket.id < |store.rows| && store.rows[ticket.id].status != Queued
    requires MineIn(store.rows, others, pid) && ticket.id !in others
    modifies store, ticket`status
    ensures store.Valid() && old(store.log) <= store.log
    ensures store.rows == Apply(old(store.rows), Start(ticket.id)) && ticket.status == store.rows[ticket.id].status
    ensures MineIn(store.rows, others, pid) && MineKept(old(store.rows), store.rows, others, true)
  {
    OwnStep(store.rows, Start(ticket.id), others, pid, ticket.id);
    ticket.status := store.CapacityMarkStarted(ticket.id);
  }

  /** The start of an admitted ticket, or its release when an error comes first. */
  method StartOrRelease(store: Store, ticket: Ticket, cls: Class, scope: string, pid: nat, held: set<nat>, failed: bool, ghost calm: bool)
    returns (out: Outcome)
    requires StillAdmitted(store, ticket, cls, scope, pid, calm) && Holds(store, ticket, held, pid)
    modifies store, ticket`status
    ensures old(store.log) <= store.log && Holds(store, ticket, held, pid)
    ensures Ended(store, ticket, cls, scope, pid, out, calm) && out == (if failed then Errored else Got)
    ensures MineKept(old(store.rows), store.rows, held, true)
    ensures out == Got ==> store.rows[ticket.id].limit == old(store.rows[ticket.id].limit)
    ensures Lone(old(store.rows), ticket.id) ==> Lone(store.rows, ticket.id)
  {
    if failed {
      LoneFinish(store.rows, ticket.id, Rejected);
      FinishOne(store, ticket, Rejected, held, pid);
      return Errored;
    }
    LoneStart(store.rows, ticket.id);
    StartOne(store, ticket, held, pid);
    out := Got;
  }

  /** From an admitted ticket to a running one. */
  method StartAdmitted(store: Store, ticket: Ticket, cls: Class, scope: string, pid: nat, held: set<nat>, p: Poll)
    returns (out: Outcome)
    requires store.Valid() && Holds(store, ticket, held, pid) && Owns(store.rows, ticket.id, cls, scope, pid)
    requires ticket.status == Admitted == store.rows[ticket.id].status && ticket.parent == null
    modifies store, ticket`status
    ensures old(store.log) <= store.log && Holds(store, ticket, held, pid)
    ensures Ended(store, ticket, cls, scope, pid, out, AllCalm(p.peersBeforeStart))
    ensures MineKept(old(store.rows), store.rows, held, AllCalm(p.peersBeforeStart))
    ensures out == Got ==> store.rows[ticket.id].limit == old(store.rows[ticket.id].limit)
    ensures out == Died <==> p.fault == Killed
    ensures Solitary(p) ==> out == Got && (Lone(old(store.rows), ticket.id) ==> Lone(store.rows, ticket.id))
  {
    Yield(store, ticket, cls, scope, pid, held, p.peersBeforeStart);
    assert ticket.id in held + {ticket.id};
    if p.fault == Killed {
      return Died;
    }
    out := StartOrRelease(store, ticket, cls, scope, pid, held, p.fault == FaultAfter, AllCalm(p.peersBeforeStart));
  }

  /** The end of an attempt that gave up, timed out or failed. */
  method GiveUp(store: Store, ticket: Ticket, cls: Class, scope: string, pid: nat, held: set<nat>,
                end: Status, how: Outcome)
    returns (out: seq<Outcome>)
    requires Waiting(store, ticket, cls, scope, pid) && Holds(store, ticket, held, pid)
    requires Terminal(end) && how != Got && how != Died
    modifies store, ticket`status
    ensures old(store.log) <= store.log && Holds(store, ticket, held, pid) && out == [how]
    ensures MineKept(old(store.rows), store.rows, held, true)
    ensures Ended(store, ticket, cls, scope, pid, how, true)
  {
    FinishOne(store, ticket, end, held, pid);
    out := [how];
  }

  /** One try under the rule. */
  method TryOnce(store: Store, ticket: Ticket, cls: Class, scope: string, pid: nat, held: set<nat>, capacity: int)
    returns (admitted: bool)
    requires Waiting(store, ticket, cls, scope, pid) && Holds(store, ticket, held, pid)
    modifies store, ticket`status
    ensures old(store.log) <= store.log && Holds(store, ticket, held, pid)
    ensures MineKept(old(store.rows), store.rows, held, true)
    ensures if admitted then StillAdmitted(store, ticket, cls, scope, pid, true) else Waiting(store, ticket, cls, scope, pid)
    ensures admitted && Shared(cls) ==> store.rows[ticket.id].limit == capacity
    ensures Lone(old(store.rows), ticket.id) ==> Lone(store.rows, ticket.id) && (!Shared(cls) ==> (admitted <==> capacity >= 1))
  {
    if Lone(store.rows, ticket.id) && !Shared(cls) {
      LoneAdmits(store.rows, ticket.id, capacity);
    }
    OwnStep(store.rows, TryAdmit(ticket.id, capacity), held, pid, ticket.id);
    var row := store.CapacityTryAdmit(ticket.id, capacity);
    admitted := row != [];
    if admitted {
      ticket.status := row[0];
    }
  }

  /** The admission attempt of one turn; an empty result means the rule refused. */
  method AttemptAdmit(store: Store, ticket: Ticket, cls: Class, scope: string, pid: nat, held: set<nat>, p: Poll)
    returns (out: seq<Outcome>)
    requires Waiting(store, ticket, cls, scope, pid) && Holds(store, ticket, held, pid)
    modifies store, ticket`status
    ensures old(store.log) <= store.log && Holds(store, ticket, held, pid) && |out| <= 1
    ensures MineKept(old(store.rows), store.rows, held, AllCalm(p.peersBeforeStart))
    ensures out == [] ==> Waiting(store, ticket, cls, scope, pid)
    ensures out != [] ==> Ended(store, ticket, cls, scope, pid, out[0], AllCalm(p.peersBeforeStart))
    ensures out == [Got] && Shared(cls) ==> store.rows[ticket.id].limit == p.capacity
    ensures out == [Died] ==> p.fault == Killed
    ensures Solitary(p) && Lone(old(store.rows), ticket.id) && !Shared(cls) ==>
              Lone(store.rows, ticket.id) && out == if p.capacity >= 1 then [Got] else []
  {
    var admitted := TryOnce(store, ticket, cls, scope, pid, held, p.capacity);
    if !admitted {
      return [];
    }
    var end := StartAdmitted(store, ticket, cls, scope, pid, held, p);
    out := [end];
  }

  /** Force the admission of a ticket whose lock is held. */
  method Force(store: Store, ticket: Ticket, scope: string, pid: nat, held: set<nat>, p: Poll) returns (out: Outcome)
    requires Waiting(store, ticket, ReviewFg, scope, pid) && Holds(store, ticket, held, pid)
    modifies store, ticket`status
    ensures old(store.log) <= store.log && Holds(store, ticket, held, pid)
    ensures MineKept(old(store.rows), store.rows, held, AllCalm(p.peersBeforeStart))
    ensures Ended(store, ticket, ReviewFg, scope, pid, out, AllCalm(p.peersBeforeStart))
    ensures out == Died ==> p.fault == Killed
  {
    OwnStep(store.rows, ForceAdmit(ticket.id), held, pid, ticket.id);
    var row := store.CapacityForceAdmit(ticket.id);
    if row == [] {
      var gone := GiveUp(store, ticket, ReviewFg, scope, pid, held, Rejected, TimedOut);
      return gone[0];
    }
    ticket.status := row[0];
    out := StartAdmitted(store, ticket, ReviewFg, scope, pid, held, p);
  }

  /** The dual-hold attempt: decide, take the foreground lock, then force the admission. */
  method AttemptForced(store: Store, ticket: Ticket, scope: string, pid: nat, held: set<nat>, p: Poll)
    returns (out: seq<Outcome>)
    requires Waiting(store, ticket, ReviewFg, scope, pid) && Holds(store, ticket, held, pid)
    modifies store, ticket`status
    ensures old(store.log) <= store.log && Holds(store, ticket, held, pid) && |out| <= 1
    ensures MineKept(old(store.rows), store.rows, held, AllCalm(p.peersAtLock) && AllCalm(p.peersBeforeStart))
    ensures out == [] ==> Waiting(store, ticket, ReviewFg, scope, pid)
    ensures out != [] ==> Ended(store, ticket, ReviewFg, scope, pid, out[0], AllCalm(p.peersBeforeStart))
    ensures out == [Died] ==> p.fault == Killed
  {
    if !DecideAdmit(ticket.id, Views(store.rows, ReviewFg, scope), 1) {
      return [];
    }
    YieldQueued(store, ticket, ReviewFg, scope, pid, held, p.peersAtLock);
    if !p.locked {
      return [];
    }
    ghost var was := store.rows;
    var end := Force(store, ticket, scope, pid, held, p);
    MineKeptBoth(old(store.rows), was, store.rows, held, AllCalm(p.peersAtLock), AllCalm(p.peersBeforeStart));
    out := [end];
  }

  /** Between two admission attempts the queue keeps moving without us. */
  method WaitTurn(store: Store, ticket: Ticket, cls: Class, scope: string, pid: nat, held: set<nat>, p: Poll)
    requires Waiting(store, ticket, cls, scope, pid) && Holds(store, ticket, held, pid)
    requires Truthful(p.observe(pid))
    modifies store
    ensures old(store.log) <= store.log && Holds(store, ticket, held, pid)
    ensures MineKept(old(store.rows), store.rows, held, p.aged == {} && AllCalm(p.peers))
    ensures Waiting(store, ticket, cls, scope, pid)
    ensures Solitary(p) && Lone(old(store.rows), ticket.id) ==> store.rows == old(store.rows)
  {
    ReclaimPeers(store, ticket, cls, scope, pid, held, p);
    assert ticket.id in held + {ticket.id};
    ghost var was := store.rows;
    YieldQueued(store, ticket, cls, scope, pid, held, p.peers);
    MineKeptBoth(old(store.rows), was, store.rows, held, p.aged == {}, AllCalm(p.peers));
  }

  /** The end of a turn that was refused: out of time, or asleep while the others move. */
  method Sleep(store: Store, ticket: Ticket, cls: Class, scope: string, pid: nat, held: set<nat>, deadline: int, p: Poll)
    returns (out: seq<Outcome>)
    requires Waiting(store, ticket, cls, scope, pid) && Holds(store, ticket, held, pid)
    modifies store, ticket`status
    ensures old(store.log) <= store.log && Holds(store, ticket, held, pid)
    ensures MineKept(old(store.rows), store.rows, held, AllCalm(p.peersAtEnd))
    ensures if deadline - p.bottom > 0 then out == [] && Waiting(store, ticket, cls, scope, pid)
            else out == [TimedOut] && Ended(store, ticket, cls, scope, pid, TimedOut, true)
    ensures Solitary(p) && out == [] ==> store.rows == old(store.rows)
  {
    if deadline - p.bottom <= 0 {
      out := GiveUp(store, ticket, cls, scope, pid, held, Expired, TimedOut);
      return;
    }
    YieldQueued(store, ticket, cls, scope, pid, held, p.peersAtEnd);
    out := [];
  }

  /** The attempt of one turn, under the rule or by dual hold. */
  method Attempt(store: Store, ticket: Ticket, cls: Class, scope: string, pid: nat, held: set<nat>, dual: bool, p: Poll)
    returns (out: seq<Outcome>)
    requires dual ==> cls == ReviewFg
    requires Waiting(store, ticket, cls, scope, pid) && Holds(store, ticket, held, pid)
    modifies store, ticket`status
    ensures old(store.log) <= store.log && Holds(store, ticket, held, pid) && |out| <= 1
    ensures MineKept(old(store.rows), store.rows, held, CalmPoll(p))
    ensures out == [] ==> Waiting(store, ticket, cls, scope, pid)
    ensures out != [] ==> Ended(store, ticket, cls, scope, pid, out[0], CalmPoll(p))
    ensures out == [Got] && Shared(cls) && !dual ==> store.rows[ticket.id].limit == p.capacity
    ensures out == [Died] ==> p.fault == Killed
    ensures Solitary(p) && Lone(old(store.rows), ticket.id) && !Shared(cls) ==>
              Lone(store.rows, ticket.id) && out == if p.capacity >= 1 then [Got] else []
  {
    if dual {
      out := AttemptForced(store, ticket, scope, pid, held, p);
    } else {
      out := AttemptAdmit(store, ticket, cls, scope, pid, held, p);
    }
  }

  /** The part of a turn in which the process tries: reclaim, wait, attempt; an empty result is a refusal. */
  method Try(store: Store, ticket: Ticket, cls: Class, scope: string, pid: nat, held: set<nat>, dual: bool, p: Poll)
    returns (out: seq<Outcome>)
    requires dual ==> cls == ReviewFg
    requires Waiting(store, ticket, cls, scope, pid) && Holds(store, ticket, held, pid)
    requires Truthful(p.observe(pid))
    modifies store, ticket`status
    ensures old(store.log) <= store.log && Holds(store, ticket, held, pid) && |out| <= 1
    ensures MineKept(old(store.rows), store.rows, held, CalmPoll(p))
    ensures out == [] ==> Waiting(store, ticket, cls, scope, pid)
    ensures out != [] ==> Ended(store, ticket, cls, scope, pid, out[0], CalmPoll(p))
    ensures out == [Got] && Shared(cls) && !dual ==> store.rows[ticket.id].limit == p.capacity
    ensures out == [Died] ==> p.fault == Killed
    ensures Solitary(p) && Lone(old(store.rows), ticket.id) && !Shared(cls) ==>
              Lone(store.rows, ticket.id) && out == if p.capacity >= 1 then [Got] else []
  {
    WaitTurn(store, ticket, cls, scope, pid, held, p);
    ghost var was := store.rows;
    if p.fault == FaultBefore {
      out := GiveUp(store, ticket, cls, scope, pid, held, Rejected, Errored);
    } else {
      out := Attempt(store, ticket, cls, scope, pid, held, dual, p);
    }
    MineKeptBoth(old(store.rows), was, store.rows, held, p.aged == {} && AllCalm(p.peers), CalmPoll(p));
  }

  /** Nothing stands in the way of this turn but the capacity. */
  predicate Unhindered(p: Poll, deadline: int, attempted: bool)
  {
    Solitary(p) && (attempted ==> p.top < deadline) && (p.capacity < 1 ==> p.bottom < deadline)
  }

  /** One turn of the polling loop; an empty result means keep waiting. */
  method Turn(store: Store, ticket: Ticket, cls: Class, scope: string, pid: nat, held: set<nat>,
              dual: bool, deadline: int, attempted: bool, p: Poll)
    returns (out: seq<Outcome>)
    requires dual ==> cls == ReviewFg
    requires Waiting(store, ticket, cls, scope, pid) && Holds(store, ticket, held, pid)
    requires Truthful(p.observe(pid))
    modifies store, ticket`status
    ensures old(store.log) <= store.log && Holds(store, ticket, held, pid) && |out| <= 1
    ensures MineKept(old(store.rows), store.rows, held, CalmPoll(p))
    ensures out == [] ==> Waiting(store, ticket, cls, scope, pid)
    ensures out != [] ==> Ended(store, ticket, cls, scope, pid, out[0], CalmPoll(p))
    ensures out == [Got] && Shared(cls) && !dual ==> store.rows[ticket.id].limit == p.capacity
    ensures p.cancelled ==> out == [Cancelled]
    ensures out == [Died] ==> p.fault == Killed
    ensures out == [] ==> !p.cancelled && p.bottom < deadline
    ensures Unhindered(p, deadline, attempted) && Lone(old(store.rows), ticket.id) && !Shared(cls) ==>
              Lone(store.rows, ticket.id) && out == if p.capacity >= 1 then [Got] else []
  {
    if p.cancelled {
      out := GiveUp(store, ticket, cls, scope, pid, held, Rejected, Cancelled);
      return;
    }
    if attempted && deadline - p.top <= 0 {
      out := GiveUp(store, ticket, cls, scope, pid, held, Expired, TimedOut);
      return;
    }
    out := Try(store, ticket, cls, scope, pid, held, dual, p);
    if out != [] {
      return;
    }
    ghost var was := store.rows;
    out := Sleep(store, ticket, cls, scope, pid, held, deadline, p);
    MineKeptBoth(old(store.rows), was, store.rows, held, CalmPoll(p), AllCalm(p.peersAtEnd));
  }

  lemma TurnKept(a: Table, b: Table, c: Table, held: set<nat>, script: seq<Poll>, k: nat)
    requires k < |script| && MineKept(a, b, held, CalmScript(script)) && MineKept(b, c, held, CalmPoll(script[k]))
    ensures MineKept(a, c, held, CalmScript(script))
    ensures CalmScript(script) ==> CalmPoll(script[k])
  {
    MineKeptTrans(a, b, c, held, CalmScript(script));
  }

  lemma EndedAnyway(store: Store, ticket: Ticket, cls: Class, scope: string, pid: nat, out: Outcome, calm: bool, less: bool)
    requires Ended(store, ticket, cls, scope, pid, out, calm) && (less ==> calm)
    ensures Ended(store, ticket, cls, scope, pid, out, less)
  {
  }

  ghost predicate Offers(script: seq<Poll>, limit: nat)
  {
    exists k :: 0 <= k < |script| && script[k].capacity == limit
  }

  /** None of the first `n` turns was cancelled or out of time. */
  ghost predicate PolledOn(script: seq<Poll>, n: nat, deadline: int)
  {
    n <= |script| && (n == 0 || (PolledOn(script, n - 1, deadline) && !script[n - 1].cancelled && script[n - 1].bottom < deadline))
  }

  ghost predicate Kills(script: seq<Poll>)
  {
    exists k :: 0 <= k < |script| && script[k].fault == Killed
  }

  // ------------------------------------------------------------ time asleep

  /** One pause between two polls: never past the deadline. */
  function Slice(pollSec: int, remaining: int): int
  {
    var s := if pollSec < remaining then pollSec else remaining;
    if s > 0 then s else 0
  }

  /** The clock never runs backwards, and a pause lasts at least as long as was asked for. */
  ghost predicate Steady(script: seq<Poll>, start: int, deadline: int, pollSec: int)
  {
    && (script != [] ==> start <= script[0].top)
    && (forall k :: 0 <= k < |script| ==> script[k].top <= script[k].bottom)
    && forall k, m :: 0 <= k && m == k + 1 < |script| ==>
         script[k].bottom + Slice(pollSec, deadline - script[k].bottom) <= script[m].top
  }

  /** The clock at poll k when time passes in pauses only. */
  function Clock(start: int, deadline: int, pollSec: int, k: nat): int
  {
    if k == 0 then start
    else Clock(start, deadline, pollSec, k - 1) + Slice(pollSec, deadline - Clock(start, deadline, pollSec, k - 1))
  }

  ghost predicate Punctual(script: seq<Poll>, start: int, deadline: int, pollSec: int)
  {
    forall k :: 0 <= k < |script| ==> script[k].top == script[k].bottom == Clock(start, deadline, pollSec, k)
  }

  /** Pausing goes on until the deadline, and not beyond. */
  lemma {:induction false} ClockRuns(start: int, deadline: int, pollSec: int, k: nat)
    requires pollSec >= 1 && start <= deadline
    ensures start <= Clock(start, deadline, pollSec, k) <= deadline
    ensures Clock(start, deadline, pollSec, k) >= start + k || Clock(start, deadline, pollSec, k) == deadline
    ensures pollSec == 1 && start + k <= deadline ==> Clock(start, deadline, pollSec, k) == start + k
  {
    if k > 0 {
      ClockRuns(start, deadline, pollSec, k - 1);
    }
  }

  /** What the pauses after the first `turns` polls add up to. */
  function SleptFor(script: seq<Poll>, deadline: int, pollSec: int, turns: nat): (slept: int)
    requires turns <= |script|
    ensures slept >= 0
  {
    if turns == 0 then 0
    else SleptFor(script, deadline, pollSec, turns - 1) + Slice(pollSec, deadline - script[turns - 1].bottom)
  }

  /** The pauses up to poll k fit between the start and that poll. */
  lemma {:induction false} SleptBefore(script: seq<Poll>, start: int, deadline: int, pollSec: int, k: nat)
    requires Steady(script, start, deadline, pollSec) && k < |script|
    ensures start + SleptFor(script, deadline, pollSec, k) <= script[k].bottom
  {
    if k > 0 {
      SleptBefore(script, start, deadline, pollSec, k - 1);
      assert script[k - 1].bottom + Slice(pollSec, deadline - script[k - 1].bottom) <= script[k].top;
    }
  }

  /** However the clock runs, the pauses add up to no more than the wait that was asked for. */
  lemma SleepBounded(script: seq<Poll>, start: int, waitSec: int, pollSec: int, turns: nat)
    requires Steady(script, start, start + waitSec, pollSec) && PolledOn(script, turns, start + waitSec)
    ensures SleptFor(script, start + waitSec, pollSec, turns) <= if waitSec < 0 then 0 else waitSec
  {
    if turns > 0 {
      SleptBefore(script, start, start + waitSec, pollSec, turns - 1);
    }
  }

  lemma {:induction false} PunctualSleep(script: seq<Poll>, start: int, deadline: int, pollSec: int, turns: nat)
    requires Punctual(script, start, deadline, pollSec) && turns <= |script|
    ensures start + SleptFor(script, deadline, pollSec, turns) == Clock(start, deadline, pollSec, turns)
  {
    if turns > 0 {
      PunctualSleep(script, start, deadline, pollSec, turns - 1);
    }
  }

  /** From poll k on, no capacity until poll `m`, and then room, with nobody else about. */
  ghost predicate GrantedFrom(script: seq<Poll>, deadline: int, m: nat, k: nat)
    decreases m - k
  {
    && k <= m < |script| && Solitary(script[k]) && (k > 0 ==> script[k].top < deadline)
    && if k == m then script[k].capacity >= 1
       else script[k].capacity < 1 && script[k].bottom < deadline && GrantedFrom(script, deadline, m, k + 1)
  }

  /**
   * Alone in the table at poll k, with nothing in the way but the capacity, and room at poll `m`. The clauses
   * about `Free`, `Unhindered` and `Solitary` say that such an attempt is granted then; no other depends on them.
   */
  ghost predicate Free(t: Table, id: nat, cls: Class, dual: bool, script: seq<Poll>, deadline: int, m: nat, k: nat)
  {
    !Shared(cls) && !dual && Lone(t, id) && GrantedFrom(script, deadline, m, k)
  }

  /** Take a place at the end of the queue. */
  method Join(store: Store, cls: Class, scope: string, pid: nat, held: set<nat>, queuedAt: int) returns (ticket: Ticket)
    requires store.Valid() && MineIn(store.rows, held, pid)
    modifies store
    ensures fresh(ticket) && ticket.id == |old(store.rows)| && old(store.log) <= store.log
    ensures Waiting(store, ticket, cls, scope, pid) && Holds(store, ticket, held, pid)
    ensures MineKept(old(store.rows), store.rows, held, true)
    ensures Lone(old(store.rows), |old(store.rows)|) ==> Lone(store.rows, ticket.id)
  {
    OwnStep(store.rows, Enqueue(cls, scope, queuedAt, pid), held, pid, |store.rows|);
    var id := store.CapacityEnqueue(cls, scope, queuedAt, pid);
    ticket := new Ticket(id);
  }

  /** Before poll k: in the queue, with nothing of what the process held lost since `before`. */
  ghost predicate Polling(store: Store, ticket: Ticket, cls: Class, scope: string, pid: nat, held: set<nat>,
                          script: seq<Poll>, deadline: int, before: Table, k: nat)
    reads store, ticket
  {
    && Waiting(store, ticket, cls, scope, pid) && Holds(store, ticket, held, pid)
    && MineKept(before, store.rows, held, CalmScript(script)) && PolledOn(script, k, deadline)
  }

  /**
   * After the last poll. Only a kill, or the end of the script, leaves an attempt undecided, and it polls
   * on only before its deadline.
   */
  ghost predicate Left(store: Store, ticket: Ticket, cls: Class, scope: string, pid: nat, held: set<nat>, dual: bool,
                       script: seq<Poll>, deadline: int, before: Table, out: Outcome)
    reads store, ticket
  {
    && Holds(store, ticket, held, pid) && MineKept(before, store.rows, held, CalmScript(script))
    && Ended(store, ticket, cls, scope, pid, out, CalmScript(script))
    && (out == Got && Shared(cls) && !dual ==> Offers(script, store.rows[ticket.id].limit))
    && (out == Died ==> Kills(script) || PolledOn(script, |script|, deadline))
  }

  /** Turn k of the script, as part of the whole attempt. */
  method PollOnce(store: Store, ticket: Ticket, cls: Class, scope: string, pid: nat, held: set<nat>, dual: bool, deadline: int,
                  script: seq<Poll>, k: nat, ghost before: Table, ghost room: nat)
    returns (out: seq<Outcome>)
    requires dual ==> cls == ReviewFg
    requires k < |script| && Honest(script, pid) && Polling(store, ticket, cls, scope, pid, held, script, deadline, before, k)
    modifies store, ticket`status
    ensures old(store.log) <= store.log && |out| <= 1
    ensures out == [] ==> Polling(store, ticket, cls, scope, pid, held, script, deadline, before, k + 1)
    ensures out != [] ==> Left(store, ticket, cls, scope, pid, held, dual, script, deadline, before, out[0])
    ensures Free(old(store.rows), ticket.id, cls, dual, script, deadline, room, k) ==>
              if out == [] then Free(store.rows, ticket.id, cls, dual, script, deadline, room, k + 1)
              else out == [Got] && k == room && Lone(store.rows, ticket.id)
  {
    ghost var was := store.rows;
    out := Turn(store, ticket, cls, scope, pid, held, dual, deadline, k > 0, script[k]);
    TurnKept(before, was, store.rows, held, script, k);
    if out != [] {
      EndedAnyway(store, ticket, cls, scope, pid, out[0], CalmPoll(script[k]), CalmScript(script));
    }
  }

  /** The polling loop of one ticket. */
  method PollUntil(store: Store, ticket: Ticket, cls: Class, scope: string, pid: nat, held: set<nat>, dual: bool, deadline: int,
                   pollSec: int, script: seq<Poll>, ghost before: Table, ghost room: nat)
    returns (out: Outcome, slept: int, ghost turns: nat)
    requires dual ==> cls == ReviewFg
    requires Honest(script, pid) && Polling(store, ticket, cls, scope, pid, held, script, deadline, before, 0)
    modifies store, ticket`status
    ensures old(store.log) <= store.log
    ensures Left(store, ticket, cls, scope, pid, held, dual, script, deadline, before, out)
    ensures PolledOn(script, turns, deadline) && slept == SleptFor(script, deadline, pollSec, turns)
    ensures Free(old(store.rows), ticket.id, cls, dual, script, deadline, room, 0) ==>
              out == Got && turns == room && Lone(store.rows, ticket.id)
  {
    slept, turns := 0, 0;
    for k := 0 to |script|
      invariant old(store.log) <= store.log && turns == k && slept == SleptFor(script, deadline, pollSec, k)
      invariant Polling(store, ticket, cls, scope, pid, held, script, deadline, before, k)
      invariant Free(old(store.rows), ticket.id, cls, dual, script, deadline, room, 0) ==>
                  Free(store.rows, ticket.id, cls, dual, script, deadline, room, k)
    {
      var end := PollOnce(store, ticket, cls, scope, pid, held, dual, deadline, script, k, before, room);
      if end != [] {
        return end[0], slept, turns;
      }
      slept, turns := slept + Slice(pollSec, deadline - script[k].bottom), turns + 1;
    }
    out := Died;
  }

  /**
   * Enqueue and poll until admitted and running, cancelled, out of time or failed. The end of
   * the script is the process being killed between turns. `turns` polls were refused and slept over.
   */
  method Acquire(store: Store, cls: Class, scope: string, pid: nat, held: set<nat>, dual: bool,
                 queuedAt: int, start: int, waitSec: int, pollSec: int, script: seq<Poll>, ghost room: nat)
    returns (out: Outcome, ticket: Ticket, slept: int, ghost turns: nat)
    requires dual ==> cls == ReviewFg
    requires store.Valid() && MineIn(store.rows, held, pid)
    requires Honest(script, pid)
    modifies store
    ensures fresh(ticket) && old(store.log) <= store.log && ticket.id >= |old(store.rows)|
    ensures Left(store, ticket, cls, scope, pid, held, dual, script, start + waitSec, old(store.rows), out)
    ensures PolledOn(script, turns, start + waitSec) && slept == SleptFor(script, start + waitSec, pollSec, turns)
    // Alone in the table, the attempt is granted as soon as there is room.
    ensures Free(old(store.rows), |old(store.rows)|, cls, dual, script, start + waitSec, room, 0) ==>
              out == Got && turns == room && Lone(store.rows, ticket.id)
  {
    ticket := Join(store, cls, scope, pid, held, queuedAt);
    out, slept, turns := PollUntil(store, ticket, cls, scope, pid, held, dual, start + waitSec, pollSec, script, old(store.rows), room);
  }

  lemma FinishKeepsTerminal(t: Table, id: nat, end: Status, i: nat)
    requires i < |t| && id < |t| && Terminal(t[i].status)
    ensures |Apply(t, Finish(id, end))| == |t| && Apply(t, Finish(id, end))[i] == t[i]
  {
  }

  /** Release, expire or reject a ticket and, with it, the machine ticket it holds. */
  method FinishTicket(store: Store, ticket: Ticket, end: Status)
    requires store.Valid() && ticket.id < |store.rows| && Terminal(end)
    requires ticket.parent != null ==> ticket.parent != ticket && ticket.parent.id < |store.rows|
    modifies store, ticket, ticket.parent
    ensures store.Valid() && old(store.log) <= store.log
    ensures ticket.id < |store.rows| && Terminal(store.rows[ticket.id].status) && ticket.parent == null
    ensures old(ticket.parent) != null ==>
              old(ticket.parent).id < |store.rows| && Terminal(store.rows[old(ticket.parent).id].status)
  {
    ticket.status := store.CapacityFinish(ticket.id, end);
    if ticket.parent != null {
      FinishKeepsTerminal(store.rows, ticket.parent.id, end, ticket.id);
      ticket.parent.status := store.CapacityFinish(ticket.parent.id, end);
    }
    ticket.parent := null;
  }

  /** What a foreground admission leaves behind, however it ends. */
  ghost predicate ForegroundEnd(store: Store, out: Outcome, ticket: Ticket?, m: nat, scope: string, pid: nat, calm: bool)
    reads store, ticket, if ticket == null then null else ticket.parent
  {
    && store.Valid() && Owns(store.rows, m, ReviewMachine, MACHINE_SCOPE, pid)
    && match out
       case Got =>
         && ticket != null && ticket.parent != null && ticket.parent.id == m != ticket.id
         && Owns(store.rows, ticket.id, ReviewFg, scope, pid)
         && store.rows[m].status == Running
         && ticket.status == store.rows[ticket.id].status
         && (ticket.status == Running || (ticket.status == Rejected && !calm))
       case Died => true
       case _ => Terminal(store.rows[m].status)
                 && (ticket != null ==> Owns(store.rows, ticket.id, ReviewFg, scope, pid) && Terminal(store.rows[ticket.id].status))
  }

  /** A repository ticket that runs is linked to the machine's; any other ending gives the machine ticket back. */
  method LinkOrRelease(store: Store, machine: Ticket, ticket: Ticket, out: Outcome, scope: string, pid: nat, ghost calm: bool)
    requires Ended(store, ticket, ReviewFg, scope, pid, out, calm) && pid > 0
    requires Owns(store.rows, machine.id, ReviewMachine, MACHINE_SCOPE, pid) && store.rows[machine.id].status == Running
    modifies store, machine`status, ticket`parent
    ensures old(store.log) <= store.log && ForegroundEnd(store, out, ticket, machine.id, scope, pid, calm)
    ensures out == Got ==> store.rows == old(store.rows)
  {
    if out == Got {
      ticket.parent := machine;
    } else if out != Died {
      FinishOne(store, machine, Rejected, {ticket.id}, pid);
    }
  }

  /** Machine ticket first, then the repository's own; both or neither. */
  method AcquireForFg(store: Store, scope: string, pid: nat, dual: bool, machineCapacity: nat, waitSec: int,
                      pollSec: int, machineQueuedAt: int, repoQueuedAt: int, start: int, machineScript: seq<Poll>,
                      middle: int, repoStart: int, repoScript: seq<Poll>)
    returns (out: Outcome, ticket: Ticket?, ghost m: nat)
    requires store.Valid() && pid > 0
    requires Honest(machineScript, pid) && Honest(repoScript, pid)
    requires machineCapacity >= 1 && forall k :: 0 <= k < |machineScript| ==> machineScript[k].capacity == machineCapacity
    modifies store
    ensures old(store.log) <= store.log && m >= |old(store.rows)|
    ensures ForegroundEnd(store, out, ticket, m, scope, pid, CalmScript(repoScript))
    ensures out == Got ==> Limit(store.rows[m]) == machineCapacity
    ensures out == Got && ticket.status == Running ==> UnderWay(store.log, Review(ticket.id, m, pid, |store.log|))
  {
    var machine: Ticket;
    var slept;
    ghost var turns;
    out, machine, slept, turns := Acquire(store, ReviewMachine, MACHINE_SCOPE, pid, {}, false,
                                          machineQueuedAt, start, waitSec, pollSec, machineScript, 0);
    m := machine.id;
    ticket := null;
    if out != Got {
      return;
    }
    var remaining := start + waitSec - middle;
    ghost var was := store.rows;
    out, ticket, slept, turns := Acquire(store, ReviewFg, scope, pid, {machine.id}, dual, repoQueuedAt, repoStart,
                                         if remaining < 0 then 0 else remaining, pollSec, repoScript, 0);
    assert store.rows[m] == was[m] by {
      assert m in {machine.id};
    }
    LinkOrRelease(store, machine, ticket, out, scope, pid, CalmScript(repoScript));
    assert store.log[..|store.log|] == store.log;
  }

  // ------------------------------------------------------------ machine bound

  /** A foreground review whose admission returned when the log was `since` calls long. */
  datatype Review = Review(repo: nat, machine: nat, pid: nat, since: nat)

  /** It returned with both rows running, and since then only others have acted: it is still under way. */
  ghost predicate UnderWay(log: seq<Event>, r: Review)
  {
    && r.since <= |log| && r.pid > 0
    && Owns(At(log, r.since), r.machine, ReviewMachine, MACHINE_SCOPE, r.pid)
    && r.repo < |At(log, r.since)| && At(log, r.since)[r.repo].pid == r.pid && At(log, r.since)[r.repo].cls == ReviewFg
    && At(log, r.since)[r.machine].status == Running == At(log, r.since)[r.repo].status
    && forall n :: r.since <= n < |log| ==> Foreign(log[n], {r.repo, r.machine}, r.pid)
  }

  lemma KeptAt(log: seq<Event>, n: nat, mine: set<nat>, pid: nat, i: nat)
    requires n < |log| && i in mine && i < |At(log, n)| && At(log, n)[i].pid == pid > 0
    requires Foreign(log[n], mine, pid)
    ensures i < |At(log, n + 1)| && Kept(At(log, n)[i], At(log, n + 1)[i], Calm(log[n]))
  {
    AtStep(log, n);
    ForeignStep(At(log, n), log[n], mine, pid, i);
  }

  lemma CalmAt(log: seq<Event>, since: nat, n: nat)
    requires since <= n < |log| && AllCalm(log[since..])
    ensures Calm(log[n])
  {
    assert log[since..][n - since] == log[n];
  }

  /** Step n of the others, as the two rows of a review under way see it. */
  lemma UnderWayStep(log: seq<Event>, r: Review, n: nat)
    requires UnderWay(log, r) && r.since <= n < |log|
    requires r.machine < |At(log, n)| && At(log, n)[r.machine] == At(log, r.since)[r.machine]
    requires r.repo < |At(log, n)| && At(log, n)[r.repo].pid == r.pid
    ensures r.machine < |At(log, n + 1)| && At(log, n + 1)[r.machine] == At(log, r.since)[r.machine]
    ensures r.repo < |At(log, n + 1)| && Kept(At(log, n)[r.repo], At(log, n + 1)[r.repo], Calm(log[n]))
  {
    KeptAt(log, n, {r.repo, r.machine}, r.pid, r.machine);
    KeptAt(log, n, {r.repo, r.machine}, r.pid, r.repo);
  }

  lemma {:induction false} UnderWayKeeps(log: seq<Event>, r: Review, m: nat)
    requires UnderWay(log, r) && r.since <= m <= |log|
    ensures r.machine < |At(log, m)| && At(log, m)[r.machine] == At(log, r.since)[r.machine]
    ensures r.repo < |At(log, m)| && At(log, m)[r.repo].pid == r.pid
    ensures AllCalm(log[r.since..]) ==> At(log, m)[r.repo] == At(log, r.since)[r.repo]
    decreases m
  {
    if r.since < m {
      UnderWayKeeps(log, r, m - 1);
      UnderWayStep(log, r, m - 1);
      if AllCalm(log[r.since..]) {
        CalmAt(log, r.since, m - 1);
      }
    }
  }

  /** Unless somebody has reclaimed by age since, the repository slot is still held. */
  ghost predicate HoldsRepo(log: seq<Event>, r: Review)
  {
    r.since <= |log| && AllCalm(log[r.since..]) ==> r.repo < |Replay(log)| && Replay(log)[r.repo].status == Running
  }

  /** Tickets are issued once. */
  ghost predicate OwnTickets(live: set<Review>)
  {
    forall r, s :: r in live && s in live && r.machine == s.machine ==> r == s
  }

  lemma {:induction false} AsManyMachines(live: set<Review>, holders: set<nat>)
    requires OwnTickets(live) && forall r :: r in live ==> r.machine in holders
    ensures |live| <= |holders|
  {
    if live != {} {
      var r :| r in live;
      AsManyMachines(live - {r}, holders - {r.machine});
    }
  }

  /**
   * The outer cap over all repositories: reviews under way never outnumber the largest machine capacity
   * anyone offered, and while nobody reclaims by age each of them still holds its repository slot too.
   */
  lemma ForegroundReviewsFit(log: seq<Event>, live: set<Review>, bound: nat)
    requires LegalLog(log) && OffersAtMost(log, ReviewMachine, MACHINE_SCOPE, bound)
    requires OwnTickets(live) && forall r :: r in live ==> UnderWay(log, r)
    ensures |live| <= bound
    ensures forall r :: r in live ==> HoldsRepo(log, r)
  {
    assert log[..|log|] == log;
    forall r | r in live
      ensures r.machine in Holders(Replay(log), ReviewMachine, MACHINE_SCOPE) && HoldsRepo(log, r)
    {
      UnderWayKeeps(log, r, |log|);
    }
    AsManyMachines(live, Holders(Replay(log), ReviewMachine, MACHINE_SCOPE));
    HoldersWithinOffers(log, ReviewMachine, MACHINE_SCOPE, bound);
  }

  // ----------------------------------------------- between admission and start

  /** A call on row i itself. */
  predicate ActsOn(e: Event, i: nat)
  {
    match e
    case TryAdmit(id, _) => id == i
    case ForceAdmit(id) => id == i
    case Start(id) => id == i
    case Finish(id, _) => id == i
    case _ => false
  }

  /** A reclaim that observes the process of row i as gone, or the row as past the age limit. */
  predicate Reclaims(t: Table, e: Event, i: nat)
    requires i < |t|
  {
    e.Reclaim? && Peer(t[i], e.cls, e.scope) && ReclaimReason(t[i], e.observe(t[i].pid), i in e.aged) != []
  }

  ghost predicate NoReclaim(log: seq<Event>, k: nat, m: nat, i: nat)
    requires k <= m <= |log| && i < |At(log, k)|
  {
    forall n :: k <= n < m ==> !Reclaims(At(log, k), log[n], i)
  }

  lemma UntouchedStep(t: Table, e: Event, i: nat)
    requires i < |t| && !ActsOn(e, i)
    ensures i < |Apply(t, e)|
    ensures Apply(t, e)[i] == if !Terminal(t[i].status) && Reclaims(t, e, i) then t[i].(status := Rejected) else t[i]
  {
    if e.Reclaim? {
      ReclaimedAt(t, e.cls, e.scope, e.observe, e.aged, i);
    }
  }

  lemma NoReclaimStep(log: seq<Event>, k: nat, m: nat, i: nat)
    requires k < m <= |log| && i < |At(log, k)|
    ensures NoReclaim(log, k, m, i) <==> NoReclaim(log, k, m - 1, i) && !Reclaims(At(log, k), log[m - 1], i)
  {
  }

  lemma {:induction false} AdmittedSurvives(log: seq<Event>, k: nat, m: nat, i: nat)
    requires k <= m <= |log| && i < |At(log, k)| && At(log, k)[i].status == Admitted
    requires forall n :: k <= n < m ==> !ActsOn(log[n], i)
    ensures i < |At(log, m)|
    ensures At(log, m)[i] == if NoReclaim(log, k, m, i) then At(log, k)[i] else At(log, k)[i].(status := Rejected)
    decreases m
  {
    if k < m {
      AdmittedSurvives(log, k, m - 1, i);
      NoReclaimStep(log, k, m, i);
      UntouchedTurn(log, m - 1, i);
    }
  }

  lemma UntouchedTurn(log: seq<Event>, n: nat, i: nat)
    requires n < |log| && i < |At(log, n)| && !ActsOn(log[n], i)
    ensures i < |At(log, n + 1)|
    ensures At(log, n + 1)[i] == if !Terminal(At(log, n)[i].status) && Reclaims(At(log, n), log[n], i)
                                 then At(log, n)[i].(status := Rejected) else At(log, n)[i]
  {
    AtStep(log, n);
    UntouchedStep(At(log, n), log[n], i);
  }

  /**
   * An admitted row becomes running exactly when no reclaim between its admission and its start
   * observed its process as gone or the row as past the age limit.
   */
  lemma StartedExactly(log: seq<Event>, k: nat, m: nat, i: nat)
    requires k <= m <= |log| && i < |At(log, k)| && At(log, k)[i].status == Admitted
    requires forall n :: k <= n < m ==> !ActsOn(log[n], i)
    ensures i < |At(log, m)|
    ensures Apply(At(log, m), Start(i))[i].status == Running <==> NoReclaim(log, k, m, i)
  {
    AdmittedSurvives(log, k, m, i);
  }

  /** Of a live process that is observed truthfully, only age can take the slot, and never the machine's. */
  lemma LiveLosesByAge(t: Table, e: Event, i: nat)
    requires i < |t| && t[i].status == Admitted && t[i].pid > 0 && (e.Reclaim? ==> Truthful(e.observe(t[i].pid)))
    ensures Reclaims(t, e, i) <==> e.Reclaim? && Peer(t[i], e.cls, e.scope) && t[i].cls != ReviewMachine && i in e.aged
  {
  }

  const LIVE: Observer := (pid: nat) => Observation(true, false, false)
  const JOINS := Enqueue(ReviewFg, "repo", 0, 7)
  const AGES := Reclaim(ReviewFg, "repo", LIVE, {0})

  lemma LoneReplay()
    ensures Replay([JOINS, TryAdmit(0, 1)]) == LoneRow(Admitted, 1) && LegalLog([JOINS, TryAdmit(0, 1)])
  {
    ReplaySnoc([], JOINS);
    assert [] + [JOINS] == [JOINS];
    LoneAdmitted();
    ReplaySnoc([JOINS], TryAdmit(0, 1));
    assert [JOINS] + [TryAdmit(0, 1)] == [JOINS, TryAdmit(0, 1)];
  }

  /** The concrete run: the slot is lost between admission and start. */
  lemma AgeReclaimLosesSlot()
    ensures var log := [JOINS, TryAdmit(0, 1), AGES, Start(0)];
            LegalLog(log) && At(log, 2) == LoneRow(Admitted, 1) && At(log, 2)[0].status == Admitted && Replay(log) == LoneRow(Rejected, 1)
  {
    var two := [JOINS, TryAdmit(0, 1)];
    LoneReplay();
    LoneReclaimed(LIVE);
    ReplaySnoc(two, AGES);
    ReplaySnoc(two + [AGES], Start(0));
    assert two + [AGES] + [Start(0)] == [JOINS, TryAdmit(0, 1), AGES, Start(0)];
    assert [JOINS, TryAdmit(0, 1), AGES, Start(0)][..2] == two;
  }

  function LoneRow(status: Status, limit: nat): Table
  {
    [Row(ReviewFg, "repo", 0, 7, status, limit)]
  }

  lemma LoneAdmitted()
    ensures Apply(LoneRow(Queued, 0), TryAdmit(0, 1)) == LoneRow(Admitted, 1)
  {
    var t := LoneRow(Queued, 0);
    var none := Holders(t, ReviewFg, "repo");
    assert none == {};
    LoneFloor();
    DecideAdmitExactly(t, t[0].cls, t[0].scope, 0, 1);
  }

  lemma LoneFloor()
    ensures EffectiveCapacity(LoneRow(Queued, 0), ReviewFg, "repo", 1) == 1
  {
    var t := LoneRow(Queued, 0);
    assert t[..0] == [];
  }

  lemma LoneReclaimed(live: Observer)
    requires live(7) == Observation(true, false, false)
    ensures Apply(LoneRow(Admitted, 1), Reclaim(ReviewFg, "repo", live, {0})) == LoneRow(Rejected, 1)
  {
    ReclaimedAt(LoneRow(Admitted, 1), ReviewFg, "repo", live, {0}, 0);
  }
}
