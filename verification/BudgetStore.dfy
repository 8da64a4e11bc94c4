/** Execution-fenced budget snapshots and capacity layers. */
module BudgetStore {
  import opened Ticks

  // ------------------------------------------------------------------- tables

  /** One execution of a request; its sequence number is its place in the log of all executions, from 1. */
  datatype Execution = Execution(request: nat, token: nat)

  datatype Admission = Admission(cls: nat, scope: nat, live: bool)

  datatype Snapshot = Snapshot(content: nat, updatedAt: int)

  datatype Layer = Layer(request: nat, seqNo: nat, cls: nat, scope: nat,
                         effective: nat, configured: Option<nat>, dualHold: Option<bool>, updatedAt: int)

  datatype Db = Db(
    owners: map<nat, nat>, executions: seq<Execution>, admissions: map<nat, Admission>, links: set<(nat, nat)>,
    snapshots: map<(nat, nat), Snapshot>, layers: map<nat, Layer>)

  const EMPTY := Db(map[], [], map[], {}, map[], map[])

  /** The highest sequence number of the request; 0 when it was never executed. */
  function Latest(executions: seq<Execution>, request: nat): (r: nat)
    ensures r <= |executions|
    ensures r > 0 ==> executions[r - 1].request == request
    ensures forall k :: r <= k < |executions| ==> executions[k].request != request
  {
    if executions == [] then 0
    else if executions[|executions| - 1].request == request then |executions|
    else Latest(executions[..|executions| - 1], request)
  }

  /** The writer owns the request, and its execution is the request's latest. */
  predicate IsOwner(db: Db, request: nat, seqNo: nat, token: nat)
  {
    && request in db.owners && db.owners[request] == token
    && 1 <= seqNo <= |db.executions| && db.executions[seqNo - 1] == Execution(request, token)
    && seqNo == Latest(db.executions, request)
  }

  // ------------------------------------------------------------------- writes

  /** A committed change by any process. */
  datatype Event =
    | Claim(request: nat, token: nat)
    | Admit(admission: nat, cls: nat, scope: nat, request: nat)
    | Retire(admission: nat)
    | SaveBudget(request: nat, seqNo: nat, token: nat, content: nat, at: int)
    | RecordCapacity(request: nat, seqNo: nat, token: nat, admission: nat, cls: nat, scope: nat,
                     effective: nat, configured: Option<nat>, dualHold: Option<bool>, at: int)

  predicate Saves(db: Db, e: Event)
    requires e.SaveBudget?
  {
    && IsOwner(db, e.request, e.seqNo, e.token)
    && ((e.request, e.seqNo) in db.snapshots ==> db.snapshots[(e.request, e.seqNo)].updatedAt <= e.at)
  }

  function LayerOf(e: Event): Layer
    requires e.RecordCapacity?
  {
    Layer(e.request, e.seqNo, e.cls, e.scope, e.effective, e.configured, e.dualHold, e.at)
  }

  /** A linked admission of that class and scope; live for a first observation, and never reassigned by a later one. */
  predicate Records(db: Db, e: Event)
    requires e.RecordCapacity?
  {
    && IsOwner(db, e.request, e.seqNo, e.token)
    && e.admission in db.admissions && (e.request, e.admission) in db.links
    && db.admissions[e.admission].cls == e.cls && db.admissions[e.admission].scope == e.scope
    && if e.admission in db.layers then
         var l := db.layers[e.admission];
         (l.request, l.seqNo, l.cls, l.scope) == (e.request, e.seqNo, e.cls, e.scope) && l.updatedAt <= e.at
       else db.admissions[e.admission].live
  }

  function Apply(db: Db, e: Event): Db
  {
    match e
    case Claim(request, token) =>
      db.(owners := db.owners[request := token], executions := db.executions + [Execution(request, token)])
    case Admit(admission, cls, scope, request) =>
      if admission in db.admissions then db
      else db.(admissions := db.admissions[admission := Admission(cls, scope, true)], links := db.links + {(request, admission)})
    case Retire(admission) =>
      if admission in db.admissions
      then db.(admissions := db.admissions[admission := db.admissions[admission].(live := false)]) else db
    case SaveBudget(request, seqNo, _, content, at) =>
      if Saves(db, e) then db.(snapshots := db.snapshots[(request, seqNo) := Snapshot(content, at)]) else db
    case RecordCapacity(_, _, _, admission, _, _, _, _, _, _) =>
      if Records(db, e) then db.(layers := db.layers[admission := LayerOf(e)]) else db
  }

  function Replay(log: seq<Event>): Db
  {
    if log == [] then EMPTY else Apply(Replay(log[..|log| - 1]), log[|log| - 1])
  }

  lemma ReplaySnoc(log: seq<Event>, e: Event)
    ensures Replay(log + [e]) == Apply(Replay(log), e)
  {
    assert (log + [e])[..|log|] == log;
  }

  // -------------------------------------------------------------- the connection

  /** Where a write goes wrong, if it does: before or after its statement took effect. */
  datatype Fault = NoFault | FaultBefore | FaultAfter

  /** What a write call returns: applied, refused, or an exception. */
  datatype Written = Applied | Refused | Raised

  /** One store connection. `outer` is the state an enclosing transaction would roll back to. */
  class Connection {
    var db: Db
    var outer: Option<Db>

    constructor (db: Db)
      ensures this.db == db && outer.None?
    {
      this.db, outer := db, None;
    }

    method Begin()
      requires outer.None?
      modifies this
      ensures outer == Some(old(db)) && db == old(db)
    {
      outer := Some(db);
    }

    method Commit()
      requires outer.Some?
      modifies this
      ensures outer.None? && db == old(db)
    {
      outer := None;
    }

    method Rollback()
      requires outer.Some?
      modifies this
      ensures outer.None? && Some(db) == old(outer)
    {
      db := outer.value;
      outer := None;
    }

    /**
     * A fenced write: inside a transaction it uses a savepoint and never ends its owner. Whatever
     * happens, the tables are those before the call unless it returns `Applied`, and an enclosing
     * transaction can still be rolled back to where it began.
     */
    method Write(e: Event, fault: Fault) returns (r: Written)
      requires e.SaveBudget? || e.RecordCapacity?
      modifies this
      ensures outer == old(outer)
      ensures r.Raised? <==> fault != NoFault
      ensures r.Applied? ==> db == Apply(old(db), e) && (if e.SaveBudget? then Saves(old(db), e) else Records(old(db), e))
      ensures r.Refused? ==> db == old(db) == Apply(old(db), e)
      ensures r.Raised? ==> db == old(db)
    {
      var nested := outer.Some?;
      var savepoint := db;
      if !nested {
        Begin();
      }
      r := Refused;
      if fault.FaultBefore? {
        r := Raised;
      } else {
        if e.SaveBudget? {
          r := Save(e);
        } else {
          r := Record(e);
        }
        if fault.FaultAfter? {
          r := Raised;
        }
      }
      if r.Raised? {
        if nested {
          db := savepoint;
        } else {
          Rollback();
        }
      } else if !nested {
        Commit();
      }
    }

    method Save(e: Event) returns (r: Written)
      requires e.SaveBudget?
      modifies this`db
      ensures db == Apply(old(db), e) && (r == if Saves(old(db), e) then Applied else Refused)
    {
      if !IsOwner(db, e.request, e.seqNo, e.token) {
        return Refused;
      }
      var key := (e.request, e.seqNo);
      if key in db.snapshots && db.snapshots[key].updatedAt > e.at {
        return Refused;
      }
      db := db.(snapshots := db.snapshots[key := Snapshot(e.content, e.at)]);
      r := Applied;
    }

    method Record(e: Event) returns (r: Written)
      requires e.RecordCapacity?
      modifies this`db
      ensures db == Apply(old(db), e) && (r == if Records(old(db), e) then Applied else Refused)
    {
      if !IsOwner(db, e.request, e.seqNo, e.token) {
        return Refused;
      }
      if e.admission !in db.admissions || (e.request, e.admission) !in db.links {
        return Refused;
      }
      var admission := db.admissions[e.admission];
      if admission.cls != e.cls || admission.scope != e.scope {
        return Refused;
      }
      if e.admission !in db.layers {
        if !admission.live {
          return Refused;
        }
      } else {
        var l := db.layers[e.admission];
        if l.request != e.request || l.seqNo != e.seqNo || l.cls != e.cls || l.scope != e.scope || l.updatedAt > e.at {
          return Refused;
        }
      }
      db := db.(layers := db.layers[e.admission := LayerOf(e)]);
      r := Applied;
    }
  }

  // ------------------------------------------------------------ over all histories

  function At(log: seq<Event>, k: nat): Db
    requires k <= |log|
  {
    Replay(log[..k])
  }

  lemma AtStep(log: seq<Event>, k: nat)
    requires k < |log|
    ensures At(log, k + 1) == Apply(At(log, k), log[k])
  {
    assert log[..k + 1] == log[..k] + [log[k]];
    ReplaySnoc(log[..k], log[k]);
  }

  /** A newer execution of the same request exists. */
  predicate Outdated(db: Db, request: nat, seqNo: nat)
  {
    seqNo < Latest(db.executions, request)
  }

  lemma LatestGrows(executions: seq<Execution>, e: Execution, request: nat)
    ensures Latest(executions + [e], request) == if e.request == request then |executions| + 1 else Latest(executions, request)
  {
    assert (executions + [e])[..|executions|] == executions;
  }

  /** What one step keeps of a snapshot row and of a layer row. */
  predicate SnapshotKept(a: Db, b: Db, request: nat, seqNo: nat)
  {
    var key := (request, seqNo);
    && (key in a.snapshots ==> key in b.snapshots && a.snapshots[key].updatedAt <= b.snapshots[key].updatedAt)
    && (Outdated(a, request, seqNo) ==>
          Outdated(b, request, seqNo) && (key in a.snapshots <==> key in b.snapshots)
          && (key in a.snapshots ==> b.snapshots[key] == a.snapshots[key]))
  }

  predicate LayerKept(a: Db, b: Db, admission: nat)
  {
    admission in a.layers ==>
      && admission in b.layers
      && var l, m := a.layers[admission], b.layers[admission];
         && (l.request, l.seqNo, l.cls, l.scope) == (m.request, m.seqNo, m.cls, m.scope)
         && l.updatedAt <= m.updatedAt
         && (Outdated(a, l.request, l.seqNo) ==> Outdated(b, l.request, l.seqNo) && m == l)
  }

  lemma OutdatedStep(db: Db, e: Event, request: nat, seqNo: nat)
    ensures Outdated(db, request, seqNo) ==> Outdated(Apply(db, e), request, seqNo)
  {
    if e.Claim? {
      LatestGrows(db.executions, Execution(e.request, e.token), request);
    }
  }

  lemma SnapshotStep(db: Db, e: Event, request: nat, seqNo: nat)
    ensures SnapshotKept(db, Apply(db, e), request, seqNo)
  {
    OutdatedStep(db, e, request, seqNo);
  }

  lemma LayerStep(db: Db, e: Event, admission: nat)
    ensures LayerKept(db, Apply(db, e), admission)
  {
    if admission in db.layers {
      OutdatedStep(db, e, db.layers[admission].request, db.layers[admission].seqNo);
    }
  }

  lemma SnapshotOn(log: seq<Event>, a: nat, b: nat, request: nat, seqNo: nat)
    requires a <= b < |log| && SnapshotKept(At(log, a), At(log, b), request, seqNo)
    ensures SnapshotKept(At(log, a), At(log, b + 1), request, seqNo)
  {
    AtStep(log, b);
    SnapshotStep(At(log, b), log[b], request, seqNo);
    SnapshotKeptTrans(At(log, a), At(log, b), At(log, b + 1), request, seqNo);
  }

  lemma LayerOn(log: seq<Event>, a: nat, b: nat, admission: nat)
    requires a <= b < |log| && LayerKept(At(log, a), At(log, b), admission)
    ensures LayerKept(At(log, a), At(log, b + 1), admission)
  {
    AtStep(log, b);
    LayerStep(At(log, b), log[b], admission);
    LayerKeptTrans(At(log, a), At(log, b), At(log, b + 1), admission);
  }

  lemma SnapshotKeptTrans(a: Db, b: Db, c: Db, request: nat, seqNo: nat)
    requires SnapshotKept(a, b, request, seqNo) && SnapshotKept(b, c, request, seqNo)
    ensures SnapshotKept(a, c, request, seqNo)
  {
  }

  lemma LayerKeptTrans(a: Db, b: Db, c: Db, admission: nat)
    requires LayerKept(a, b, admission) && LayerKept(b, c, admission)
    ensures LayerKept(a, c, admission)
  {
  }

  /** Over any stretch of any history, a snapshot's time never goes back, and it freezes once a newer execution exists. */
  lemma {:induction false} SnapshotHistory(log: seq<Event>, a: nat, b: nat, request: nat, seqNo: nat)
    requires a <= b <= |log|
    ensures SnapshotKept(At(log, a), At(log, b), request, seqNo)
    decreases b
  {
    if a < b {
      SnapshotHistory(log, a, b - 1, request, seqNo);
      SnapshotOn(log, a, b - 1, request, seqNo);
    }
  }

  /** A layer keeps its request, execution, class and scope for good, its time never goes back, and it freezes likewise. */
  lemma {:induction false} LayerHistory(log: seq<Event>, a: nat, b: nat, admission: nat)
    requires a <= b <= |log|
    ensures LayerKept(At(log, a), At(log, b), admission)
    decreases b
  {
    if a < b {
      LayerHistory(log, a, b - 1, admission);
      LayerOn(log, a, b - 1, admission);
    }
  }

  /** The owner of a request is always the token of its latest execution. */
  ghost predicate OwnersLatest(db: Db)
  {
    forall r :: r in db.owners ==> OwnerLatest(db.executions, r, db.owners[r])
  }

  predicate OwnerLatest(executions: seq<Execution>, request: nat, token: nat)
  {
    Latest(executions, request) > 0 && executions[Latest(executions, request) - 1].token == token
  }

  lemma OwnerLatestGrows(executions: seq<Execution>, e: Execution, request: nat, token: nat)
    ensures e.request == request ==> OwnerLatest(executions + [e], request, e.token)
    ensures e.request != request && OwnerLatest(executions, request, token) ==> OwnerLatest(executions + [e], request, token)
  {
    LatestGrows(executions, e, request);
  }

  lemma OwnersStep(db: Db, e: Event)
    requires OwnersLatest(db)
    ensures OwnersLatest(Apply(db, e))
  {
    if e.Claim? {
      forall r | r in Apply(db, e).owners
        ensures OwnerLatest(Apply(db, e).executions, r, Apply(db, e).owners[r])
      {
        OwnerLatestGrows(db.executions, Execution(e.request, e.token), r, if r in db.owners then db.owners[r] else 0);
      }
    }
  }

  lemma {:induction false} AlwaysOwned(log: seq<Event>)
    ensures OwnersLatest(Replay(log))
  {
    if log != [] {
      AlwaysOwned(log[..|log| - 1]);
      OwnersStep(Replay(log[..|log| - 1]), log[|log| - 1]);
    }
  }

  /**
   * Who may write: in every history, a snapshot or layer write can take effect only for the request's
   * latest execution in the hands of its latest claimant; holding the owner's token of that latest
   * execution is enough to pass the fence.
   */
  lemma OnlyLatestOwnerWrites(log: seq<Event>, request: nat, seqNo: nat, token: nat)
    ensures var db := Replay(log);
            IsOwner(db, request, seqNo, token)
            <==> request in db.owners && token == db.owners[request] && seqNo == Latest(db.executions, request)
  {
    AlwaysOwned(log);
    var db := Replay(log);
    if request in db.owners && token == db.owners[request] && seqNo == Latest(db.executions, request) {
      assert OwnerLatest(db.executions, request, token);
      assert db.executions[seqNo - 1] == Execution(request, token);
    }
  }

  /** After a newer claim, no write in the name of an older execution has any effect, ever. */
  lemma OldExecutionIsFenced(log: seq<Event>, a: nat, b: nat, e: Event)
    requires a <= b <= |log| && (e.SaveBudget? || e.RecordCapacity?)
    requires Outdated(At(log, a), e.request, e.seqNo)
    ensures Apply(At(log, b), e) == At(log, b)
  {
    SnapshotHistory(log, a, b, e.request, e.seqNo);
  }
}
