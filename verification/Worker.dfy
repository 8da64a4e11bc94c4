/** The background worker, racing dispatchers, sweeps and cancellations over one reviews table. */
module Worker {
  import opened Ticks
  import opened Reservations

  /** What surrounds the worker at each store call: others' calls just before it, a failing store, a signal. */
  datatype World = World(others: nat -> seq<Event>, fails: nat -> bool, signal: nat -> bool)

  /** Nobody else acts, the store never fails and no signal comes. */
  ghost predicate Quiet(w: World)
  {
    forall k: nat :: w.others(k) == [] && !w.fails(k) && !w.signal(k)
  }

  /** What the machine slot and the review pipeline do. */
  datatype Review = Reviewed(ok: bool, axes: Axes) | Interrupted(partial: Option<Axes>) | Exploded

  datatype Job = Job(claims: bool, sameDiff: bool, machine: bool, review: Review)

  /** Only the worker of a record finalizes or demotes it; its dispatcher attaches that worker's pid. */
  predicate Foreign(e: Event, me: nat, pid: nat)
  {
    Legal(e) &&
    match e
    case AttachPid(id, p) => id == me ==> p == pid
    case Publish(id, _) => id != me
    case Finalize(id, _, _) => id != me
    case MarkFailed(id) => id != me
    case MarkCancelled(id) => id != me
    case _ => true
  }

  predicate Trusted(t: Table, me: nat)
  {
    me < |t| && t[me].trustworthy
  }

  predicate InFlight(t: Table, me: nat)
  {
    me < |t| && t[me].status.Running?
  }

  /** Running, and nobody asked for its cancellation. */
  predicate Clear(t: Table, me: nat)
  {
    InFlight(t, me) && !t[me].cancelRequested
  }

  /** The job is what the reservation says, gets its slot, and ends in an answer. */
  predicate Answers(job: Job)
  {
    job.claims && job.sameDiff && job.machine && job.review.Reviewed?
  }

  /** A reservation published and finalized with this answer. */
  function Concluded(t: Table, me: nat, pid: nat, ok: bool, axes: Axes): Table
  {
    Apply(Apply(t, Publish(me, pid)), Finalize(me, if ok then Done else Status.Failed, axes))
  }

  /** My row: consistent, mine, and as it was when it was superseded exactly unless I forced a demotion on it. */
  predicate Watch(t: Table, me: nat, pid: nat, retired: seq<Row>, forced: bool)
  {
    && |retired| <= 1
    && (me < |t| ==> Consistent(t[me]) && (t[me].pid.Some? ==> t[me].pid.value == pid))
    && (retired != [] ==> me < |t| && retired[0].status.Superseded?
                          && if forced then t[me].status.Failed? else t[me] == retired[0])
    && (retired == [] ==> !forced && (me < |t| ==> !t[me].status.Superseded?))
  }

  function Noting(t: Table, me: nat, retired: seq<Row>): seq<Row>
  {
    if retired == [] && me < |t| && t[me].status.Superseded? then [t[me]] else retired
  }

  /** Trust is never gained, a record never vanishes, and what has ended stays ended. */
  predicate Settles(a: Table, b: Table, me: nat)
  {
    && |a| <= |b|
    && (Trusted(b, me) ==> Trusted(a, me))
    && (me < |a| && InFlight(b, me) ==> InFlight(a, me))
  }

  lemma ForeignStep(t: Table, e: Event, me: nat, pid: nat, retired: seq<Row>, forced: bool)
    requires Watch(t, me, pid, retired, forced) && Foreign(e, me, pid)
    ensures Watch(Apply(t, e), me, pid, Noting(Apply(t, e), me, retired), forced)
    ensures Settles(t, Apply(t, e), me)
  {
    if me < |t| {
      RowStep(t, e, me);
    }
  }

  /** My own calls, other than the unconditional demotion, leave a superseded row alone. */
  lemma OwnStep(t: Table, e: Event, me: nat, pid: nat, retired: seq<Row>, forced: bool)
    requires Watch(t, me, pid, retired, forced) && Legal(e)
    requires (e.Publish? && e.id == me && e.pid == pid) || (e.Finalize? && e.id == me)
             || e == FailIfRunning(me) || e == MarkCancelled(me)
    ensures Watch(Apply(t, e), me, pid, retired, forced)
    ensures !e.Finalize? ==> Settles(t, Apply(t, e), me)
    ensures e == MarkCancelled(me) ==> !Trusted(Apply(t, e), me)
    ensures e == FailIfRunning(me) || e.Finalize? ==> !InFlight(Apply(t, e), me)
    ensures me < |t| && !InFlight(t, me) && e != MarkCancelled(me) ==> Apply(t, e) == t
    ensures |Apply(t, e)| == |t|
  {
    if me < |t| {
      RowStep(t, e, me);
    }
  }

  lemma ForcedStep(t: Table, me: nat, pid: nat, retired: seq<Row>, forced: bool)
    requires Watch(t, me, pid, retired, forced)
    ensures Watch(Apply(t, MarkFailed(me)), me, pid, retired, forced || retired != [])
    ensures Settles(t, Apply(t, MarkFailed(me)), me)
    ensures !Trusted(Apply(t, MarkFailed(me)), me) && !InFlight(Apply(t, MarkFailed(me)), me)
  {
    if me < |t| {
      RowStep(t, MarkFailed(me), me);
    }
  }

  /** One worker process and its view of the store. */
  class Process {
    const me: nat
    const pid: nat
    const world: World
    var rows: Table
    var step: nat
    var signalled: bool

    /** The record's cancellation token. */
    var latched: bool
    var audited: bool
    var finalizationError: bool

    ghost var log: seq<Event>
    ghost var faulted: bool
    ghost var forced: bool
    ghost var retired: seq<Row>

    ghost predicate Valid()
      reads this`rows, this`log, this`retired, this`forced, this`faulted
    {
      && rows == Replay(log) && LegalLog(log)
      && Watch(rows, me, pid, retired, forced)
      && (forced ==> faulted)
    }

    constructor (me: nat, pid: nat, world: World, log: seq<Event>)
      requires LegalLog(log)
      requires me < |Replay(log)| ==> Replay(log)[me].pid.None? || Replay(log)[me].pid.value == pid
      ensures Valid() && this.me == me && this.pid == pid && this.world == world && rows == Replay(log)
      ensures !latched && !audited && !finalizationError && !faulted && !signalled && step == 0
      ensures retired == Noting(rows, me, [])
    {
      this.me, this.pid, this.world := me, pid, world;
      rows, this.log := Replay(log), log;
      step, signalled, latched, audited, finalizationError := 0, false, false, false, false;
      faulted, forced := false, false;
      retired := Noting(Replay(log), me, []);
      new;
      AlwaysSafe(log);
    }

    /** Others act, and a signal may arrive, before my next store call. */
    method Pause()
      requires Valid()
      modifies this`rows, this`log, this`step, this`signalled, this`retired
      ensures Valid() && Settles(old(rows), rows, me) && old(log) <= log
      ensures old(signalled) ==> signalled
      ensures Quiet(world) ==> rows == old(rows) && signalled == old(signalled)
      ensures step == old(step) + 1 && signalled == (old(signalled) || world.signal(old(step)))
      ensures world.others(old(step)) == [] ==> rows == old(rows) && retired == old(retired)
      ensures |world.others(old(step))| == 1 && Foreign(world.others(old(step))[0], me, pid)
              ==> rows == Apply(old(rows), world.others(old(step))[0]) && retired == Noting(rows, me, old(retired))
    {
      var events := world.others(step);
      for k := 0 to |events|
        invariant k == 0 ==> retired == old(retired) && rows == old(rows)
        invariant k == 1 && Foreign(events[0], me, pid) ==> rows == Apply(old(rows), events[0]) && retired == Noting(rows, me, old(retired))
        invariant Valid() && Settles(old(rows), rows, me) && old(log) <= log && signalled == old(signalled) && step == old(step)
        invariant events == [] ==> rows == old(rows)
      {
        if Foreign(events[k], me, pid) {
          Commit(events[k]);
        }
      }
      signalled := signalled || world.signal(step);
      step := step + 1;
    }

    method Commit(e: Event)
      requires Valid() && Foreign(e, me, pid)
      modifies this`rows, this`log, this`retired
      ensures Valid() && Settles(old(rows), rows, me) && log == old(log) + [e]
      ensures rows == Apply(old(rows), e) && retired == Noting(rows, me, old(retired))
    {
      ForeignStep(rows, e, me, pid, retired, forced);
      ReplaySnoc(log, e);
      rows := Apply(rows, e);
      retired := Noting(rows, me, retired);
      log := log + [e];
    }

    // ------------------------------------------------- a worker that comes too late

    /**
     * Signalled at once, its sixth store call fails, and a newer push commits just before its thirteenth.
     * The clauses about `LateAt` in the contracts below follow this one run from call to call, for
     * `LateWorker` to put together; no other clause depends on them.
     */
    ghost predicate Late()
    {
      me == 0 && forall k: nat ::
        && world.others(k) == (if k == 12 then [Reserve(0, 1, 0, false)] else [])
        && (world.fails(k) <==> k == 6) && (world.signal(k) <==> k == 0)
    }

    /** After n store calls, its reservation is still in flight. */
    ghost predicate LateAt(n: nat)
      reads this`step, this`rows, this`retired, this`signalled
    {
      && Late() && step == n && (n >= 1 ==> signalled) && retired == []
      && |rows| == 1 && rows[0].status.Running? && rows[0].branch == 0 && rows[0].pid.None?
    }

    // ------------------------------------------------------------ store calls

    /** One more store call, and every signal up to it. */
    predicate Stepped(before: nat, known: bool)
      reads this`step, this`signalled
    {
      step == before + 1 && signalled == (known || world.signal(before))
    }

    /** A failing call changes nothing and is remembered as a fault. */
    method Fails() returns (raised: bool)
      requires Valid()
      modifies this`rows, this`log, this`step, this`signalled, this`retired, this`faulted
      ensures Valid() && Settles(old(rows), rows, me) && old(log) <= log
      ensures faulted == (old(faulted) || raised) && (old(signalled) ==> signalled)
      ensures Quiet(world) ==> !raised && rows == old(rows) && signalled == old(signalled)
      ensures Stepped(old(step), old(signalled)) && raised == world.fails(step)
      ensures world.others(old(step)) == [] ==> rows == old(rows) && retired == old(retired)
      ensures |world.others(old(step))| == 1 && Foreign(world.others(old(step))[0], me, pid)
              ==> rows == Apply(old(rows), world.others(old(step))[0]) && retired == Noting(rows, me, old(retired))
    {
      Pause();
      raised := world.fails(step);
      faulted := faulted || raised;
    }

    method GetReview() returns (raised: bool, row: Option<Row>)
      requires Valid()
      modifies this`rows, this`log, this`step, this`signalled, this`retired, this`faulted
      ensures Valid() && Settles(old(rows), rows, me) && old(log) <= log
      ensures faulted == (old(faulted) || raised) && (old(signalled) ==> signalled)
      ensures !raised ==> row == if me < |rows| then Some(rows[me]) else None
      ensures Quiet(world) ==> !raised && rows == old(rows) && signalled == old(signalled)
      ensures Stepped(old(step), old(signalled)) && raised == world.fails(step)
      ensures world.others(old(step)) == [] ==> rows == old(rows) && retired == old(retired)
    {
      raised := Fails();
      row := if me < |rows| then Some(rows[me]) else None;
    }

    ghost method Own(e: Event)
      requires Valid() && Legal(e)
      requires e == Publish(me, pid) || (e.Finalize? && e.id == me) || e == FailIfRunning(me) || e == MarkCancelled(me)
      modifies this`log
      ensures log == old(log) + [e] && Replay(log) == Apply(rows, e) && LegalLog(log)
      ensures Watch(Apply(rows, e), me, pid, retired, forced)
      ensures !e.Finalize? ==> Settles(rows, Apply(rows, e), me)
      ensures e == MarkCancelled(me) ==> !Trusted(Apply(rows, e), me)
      ensures e == FailIfRunning(me) || e.Finalize? ==> !InFlight(Apply(rows, e), me)
      ensures |Apply(rows, e)| == |rows|
    {
      OwnStep(rows, e, me, pid, retired, forced);
      ReplaySnoc(log, e);
      log := log + [e];
    }

    method FailMyRunning() returns (raised: bool)
      requires Valid()
      modifies this`rows, this`log, this`step, this`signalled, this`retired, this`faulted
      ensures Valid() && Settles(old(rows), rows, me) && old(log) <= log
      ensures faulted == (old(faulted) || raised) && (old(signalled) ==> signalled)
      ensures !raised ==> !InFlight(rows, me)
      ensures Stepped(old(step), old(signalled)) && raised == world.fails(step)
      ensures raised && world.others(old(step)) == [] ==> rows == old(rows) && retired == old(retired)
    {
      raised := Fails();
      if !raised {
        Own(FailIfRunning(me));
        rows := Apply(rows, FailIfRunning(me));
      }
    }

    /** Both the demotion door and the audit of an observation end here: trust is revoked if it stands. */
    method CancelMine() returns (raised: bool)
      requires Valid()
      modifies this`rows, this`log, this`step, this`signalled, this`retired, this`faulted
      ensures Valid() && Settles(old(rows), rows, me) && old(log) <= log
      ensures faulted == (old(faulted) || raised) && (old(signalled) ==> signalled)
      ensures !raised ==> !Trusted(rows, me)
      ensures Stepped(old(step), old(signalled)) && raised == world.fails(step)
      ensures world.others(old(step)) == [] && !Trusted(old(rows), me) ==> rows == old(rows) && retired == old(retired)
    {
      raised := Fails();
      if !raised {
        Own(MarkCancelled(me));
        rows := Apply(rows, MarkCancelled(me));
      }
    }

    /** False means the reservation is no longer running. */
    method PublishMine() returns (raised: bool, mine: bool)
      requires Valid()
      modifies this`rows, this`log, this`step, this`signalled, this`retired, this`faulted
      ensures Valid() && Settles(old(rows), rows, me) && old(log) <= log
      ensures faulted == (old(faulted) || raised) && (old(signalled) ==> signalled)
      ensures !raised ==> (mine <==> InFlight(rows, me))
      ensures Quiet(world) ==> !raised && rows == Apply(old(rows), Publish(me, pid)) && signalled == old(signalled)
      ensures Stepped(old(step), old(signalled)) && raised == world.fails(step)
      ensures world.others(old(step)) == [] && !raised ==> rows == Apply(old(rows), Publish(me, pid)) && retired == old(retired)
    {
      raised := Fails();
      if raised {
        return true, false;
      }
      mine := PublishNow();
    }

    method PublishNow() returns (mine: bool)
      requires Valid()
      modifies this`rows, this`log
      ensures Valid() && Settles(old(rows), rows, me) && old(log) <= log
      ensures rows == Apply(old(rows), Publish(me, pid)) && (mine <==> InFlight(rows, me))
    {
      mine := me < |rows| && rows[me].status.Running? && (rows[me].pid.None? || rows[me].pid.value == pid);
      Own(Publish(me, pid));
      rows := Apply(rows, Publish(me, pid));
    }

    /** The one conditional finalize: it either publishes my answer, or finds the reservation over and changes nothing. */
    method FinalizeMine(status: Status, axes: Axes) returns (raised: bool, applied: bool)
      requires Valid() && (status == Done || status == Status.Failed)
      modifies this`rows, this`log, this`step, this`signalled, this`retired, this`faulted
      ensures Valid() && |old(rows)| <= |rows| && old(log) <= log
      ensures faulted == (old(faulted) || raised) && (old(signalled) ==> signalled)
      ensures raised || !applied || !Trusts(axes) ==> Settles(old(rows), rows, me)
      ensures !raised ==> !InFlight(rows, me)
      ensures !raised && applied ==> me < |rows| && rows[me].status == status && rows[me].axes == axes
      ensures Quiet(world) ==> !raised && rows == Apply(old(rows), Finalize(me, status, axes)) && signalled == old(signalled)
      ensures Quiet(world) ==> applied == InFlight(old(rows), me)
    {
      raised := Fails();
      if raised {
        return true, false;
      }
      applied := FinalizeNow(status, axes);
    }

    method FinalizeNow(status: Status, axes: Axes) returns (applied: bool)
      requires Valid() && (status == Done || status == Status.Failed)
      modifies this`rows, this`log
      ensures Valid() && |old(rows)| == |rows| && old(log) <= log
      ensures rows == Apply(old(rows), Finalize(me, status, axes)) && applied == InFlight(old(rows), me)
      ensures !applied || !Trusts(axes) ==> Settles(old(rows), rows, me)
      ensures !InFlight(rows, me)
      ensures applied ==> me < |rows| && rows[me].status == status && rows[me].axes == axes
    {
      applied := InFlight(rows, me);
      Own(Finalize(me, status, axes));
      rows := Apply(rows, Finalize(me, status, axes));
    }

    /** Another process's call that supersedes my row. */
    predicate Retires(e: Event, t: Table)
    {
      Foreign(e, me, pid) && me < |Apply(t, e)| && Apply(t, e)[me].status.Superseded?
    }

    /** The unconditional demotion. Only a worker that saw the store fail gets here. */
    method MarkFailedMine() returns (raised: bool)
      requires Valid() && faulted
      modifies this`rows, this`log, this`step, this`signalled, this`retired, this`faulted, this`forced
      ensures Valid() && Settles(old(rows), rows, me) && old(log) <= log
      ensures faulted && (old(signalled) ==> signalled)
      ensures !raised ==> !Trusted(rows, me) && !InFlight(rows, me)
      ensures Stepped(old(step), old(signalled)) && raised == world.fails(step) && (old(forced) ==> forced)
      // What was superseded since the guard was read is overwritten.
      ensures !raised && |world.others(old(step))| == 1 && Retires(world.others(old(step))[0], old(rows)) ==> forced
    {
      raised := Fails();
      if !raised {
        ReplaySnoc(log, MarkFailed(me));
        log := log + [MarkFailed(me)];
        ForcedStep(rows, me, pid, retired, forced);
        forced := forced || retired != [];
        rows := Apply(rows, MarkFailed(me));
      }
    }

    // -------------------------------------------------------- cancellation

    /** Retry the audit of a latched cancellation; the audit itself revokes any trust already committed. */
    method FlushAudit() returns (done: bool)
      requires Valid()
      modifies this`rows, this`log, this`step, this`signalled, this`retired, this`faulted, this`audited
      ensures Valid() && Settles(old(rows), rows, me) && old(log) <= log
      ensures (old(faulted) ==> faulted) && (old(signalled) ==> signalled)
      ensures !done ==> faulted
      ensures !latched ==> done && rows == old(rows)
      ensures latched && !old(audited) && old(LateAt(4)) ==> LateAt(5) && audited
    {
      if !latched || audited {
        return true;
      }
      var raised := CancelMine();
      audited := !raised;
      done := !raised;
    }

    /** Latch before any persistence: a known signal is never turned into "not cancelled". */
    method IsSet() returns (raised: bool, hit: bool)
      requires Valid()
      modifies this`rows, this`log, this`step, this`signalled, this`retired, this`faulted, this`latched, this`audited
      ensures Valid() && Settles(old(rows), rows, me) && old(log) <= log
      ensures (old(faulted) || raised ==> faulted) && (old(signalled) ==> signalled) && (old(latched) ==> latched)
      ensures old(signalled) || old(latched) ==> !raised && hit
      ensures !raised ==> hit == latched
      ensures raised ==> latched == old(latched)
      ensures Quiet(world) && !old(signalled) && !old(latched) && !(me < |old(rows)| && old(rows)[me].cancelRequested)
              ==> !raised && !hit && rows == old(rows) && !signalled
      ensures !old(latched) && !old(audited) && old(LateAt(4)) ==> LateAt(5) && !raised && hit
    {
      if latched {
        return false, true;
      }
      if signalled {
        latched := true;
        var done := FlushAudit();
        return false, true;
      }
      raised := Fails();
      if raised {
        return true, false;
      }
      if me < |rows| && rows[me].cancelRequested {
        audited, latched := true, true;
      }
      hit := latched;
    }

    /** Safe: my row stands untrusted and over. */
    predicate Revoked(r: Option<Row>)
    {
      r.Some? && !r.value.status.Running? && !r.value.trustworthy
    }

    /** Try both demotion doors, reading the row before and after each. */
    method Demote() returns (demoted: bool, error: bool)
      requires Valid() && (!faulted ==> me < |rows| && !InFlight(rows, me))
      modifies this`rows, this`log, this`step, this`signalled, this`retired, this`faulted, this`forced
      ensures Valid() && Settles(old(rows), rows, me) && old(log) <= log
      ensures (old(faulted) ==> faulted) && (old(signalled) ==> signalled)
      ensures demoted ==> me < |rows| && !Trusted(rows, me) && !InFlight(rows, me)
      ensures !demoted || error ==> faulted
      ensures old(LateAt(8)) ==> forced
    {
      var tried := Door(false);
      if !tried.Again? {
        return tried.Cleared?, tried.NotMine?;
      }
      tried := Door(true);
      return tried.Cleared?, true;
    }

    /** One door: the conditional one first, and only after a fault the unconditional one. */
    method Door(last: bool) returns (tried: Tried)
      requires Valid() && (!faulted ==> me < |rows| && !InFlight(rows, me)) && (last ==> faulted)
      modifies this`rows, this`log, this`step, this`signalled, this`retired, this`faulted, this`forced
      ensures Valid() && Settles(old(rows), rows, me) && old(log) <= log
      ensures (old(faulted) ==> faulted) && (old(signalled) ==> signalled)
      ensures tried.Cleared? ==> me < |rows| && !Trusted(rows, me) && !InFlight(rows, me)
      ensures !tried.Cleared? ==> faulted
      ensures old(LateAt(8)) && !last ==> tried.Again? && LateAt(11)
      ensures old(LateAt(11)) && last ==> forced
    {
      var raised, current := GetReview();
      if raised {
        return Again;
      }
      if current.None? {
        return NotMine;
      }
      if Revoked(current) {
        return Cleared;
      }
      tried := Knock(last);
    }

    /** Demote through this door, and see what came of it. */
    method Knock(last: bool) returns (tried: Tried)
      requires Valid() && (!faulted ==> me < |rows| && !InFlight(rows, me)) && (last ==> faulted)
      modifies this`rows, this`log, this`step, this`signalled, this`retired, this`faulted, this`forced
      ensures Valid() && Settles(old(rows), rows, me) && old(log) <= log
      ensures (old(faulted) ==> faulted) && (old(signalled) ==> signalled)
      ensures tried.Cleared? ==> me < |rows| && !Trusted(rows, me) && !InFlight(rows, me)
      ensures !tried.Cleared? ==> tried.Again? && faulted
      ensures old(LateAt(9)) && !last ==> tried.Again? && LateAt(11)
      ensures old(LateAt(12)) && last ==> forced
    {
      var raised;
      if last {
        raised := MarkFailedMine();
      } else {
        raised := CancelMine();
      }
      if raised {
        return Again;
      }
      var current;
      raised, current := GetReview();
      tried := if !raised && Revoked(current) then Cleared else Again;
    }

    // ------------------------------------------------------------------ run

    /** A cancelled review keeps its partial evidence, demoted; without one the reservation is failed in place. */
    method RecordCancellation(partial: Option<Axes>) returns (code: Option<nat>)
      requires Valid() && me < |rows|
      modifies this`rows, this`log, this`step, this`signalled, this`retired, this`faulted
      ensures Valid() && Settles(old(rows), rows, me) && old(log) <= log
      ensures (old(faulted) ==> faulted) && (old(signalled) ==> signalled)
      ensures !faulted ==> !InFlight(rows, me)
      ensures code != Some(0) ==> code.None? && faulted
      // No outcome at all exactly when its last store call, the read outside every handler, fails.
      ensures code.None? <==> world.fails(step)
      ensures partial.None? && old(LateAt(5)) ==> LateAt(7) && code == Some(0)
    {
      var raised;
      if partial.Some? {
        var applied;
        raised, applied := FinalizeMine(Status.Failed, partial.value.(degraded := true));
        if !raised && applied {
          var row;
          raised, row := GetReview();
          if !raised {
            return Some(0);
          }
        }
      }
      raised := FailMyRunning();
      var row;
      // Outside every handler: a failing read here leaves the worker without an outcome.
      raised, row := GetReview();
      code := if raised then None else Some(0);
    }

    /** Settle what the run left: a latched cancellation is demoted and audited before the code stands. */
    method Complete(token: bool, code: nat) returns (result: nat)
      requires Valid() && (token ==> me < |rows| && (!faulted ==> !InFlight(rows, me))) && (finalizationError ==> faulted)
      modifies this`rows, this`log, this`step, this`signalled, this`retired, this`faulted, this`forced,
               this`audited, this`finalizationError
      ensures Valid() && Settles(old(rows), rows, me) && old(log) <= log
      ensures (old(faulted) ==> faulted) && (old(signalled) ==> signalled)
      ensures result == code || result == 2
      ensures token && result == 0 && latched ==> !Trusted(rows, me)
      ensures result == 2 ==> code == 2 || faulted
      ensures Quiet(world) && !latched && !old(finalizationError) ==> result == code && rows == old(rows)
      ensures token && latched && old(LateAt(7)) ==> forced
    {
      result := code;
      if token {
        result := Close(code);
      }
    }

    /** The end of a worker that had its token. */
    method Close(code: nat) returns (result: nat)
      requires Valid() && me < |rows| && (!faulted ==> !InFlight(rows, me)) && (finalizationError ==> faulted)
      modifies this`rows, this`log, this`step, this`signalled, this`retired, this`faulted, this`forced,
               this`audited, this`finalizationError
      ensures Valid() && Settles(old(rows), rows, me) && old(log) <= log
      ensures (old(faulted) ==> faulted) && (old(signalled) ==> signalled)
      ensures result == code || (result == 2 && faulted)
      ensures result == 0 && latched ==> !Trusted(rows, me)
      ensures Quiet(world) && !latched && !old(finalizationError) ==> result == code && rows == old(rows)
      ensures latched && old(LateAt(7)) ==> forced
    {
      var raised, current := GetReview();
      if raised || current.None? {
        return 2;
      }
      var safe := true;
      if latched || finalizationError {
        safe := Revoke();
      }
      result := 2;
      if safe {
        result := Audit(code);
      }
    }

    /** Demote, and remember if that took more than one try. */
    method Revoke() returns (demoted: bool)
      requires Valid() && me < |rows| && (!faulted ==> !InFlight(rows, me)) && (finalizationError ==> faulted)
      modifies this`rows, this`log, this`step, this`signalled, this`retired, this`faulted, this`forced, this`finalizationError
      ensures Valid() && Settles(old(rows), rows, me) && old(log) <= log
      ensures (old(faulted) ==> faulted) && (old(signalled) ==> signalled)
      ensures demoted ==> me < |rows| && !Trusted(rows, me)
      ensures (!demoted ==> faulted) && (finalizationError ==> faulted)
      ensures old(LateAt(8)) ==> forced
    {
      var error;
      demoted, error := Demote();
      finalizationError := finalizationError || error;
    }

    /** The audit must be on record before the code may stand. */
    method Audit(code: nat) returns (result: nat)
      requires Valid() && (finalizationError ==> faulted)
      modifies this`rows, this`log, this`step, this`signalled, this`retired, this`faulted, this`audited
      ensures Valid() && Settles(old(rows), rows, me) && old(log) <= log
      ensures (old(faulted) ==> faulted) && (old(signalled) ==> signalled)
      ensures result == code || (result == 2 && faulted)
      ensures Quiet(world) && !latched && !finalizationError ==> result == code && rows == old(rows)
    {
      var done := FlushAudit();
      if !done {
        return 2;
      }
      var raised, current := GetReview();
      if raised || finalizationError {
        return 2;
      }
      result := code;
    }

    /** Validate the reservation and take up its cancellation token. `None` is to go on. */
    method Begin(job: Job) returns (stop: Option<Result>, token: bool)
      requires Valid()
      modifies this`rows, this`log, this`step, this`signalled, this`retired, this`faulted
      ensures Valid() && (old(faulted) ==> faulted) && (old(signalled) ==> signalled) && old(log) <= log
      ensures token <==> stop.None?
      ensures Known(stop) || token ==> me < |rows|
      ensures stop == Some(Finished(0)) ==> faulted || !InFlight(rows, me)
      ensures stop.Some? ==> !stop.value.Cancel? && (stop.value.Finished? ==> stop.value.code == 0 || stop.value.code == 2)
      ensures Quiet(world) && InFlight(old(rows), me) && job.claims && job.sameDiff
              ==> stop.None? && rows == Apply(old(rows), Publish(me, pid)) && signalled == old(signalled)
      ensures stop == Some(Finished(2)) ==> me >= |old(rows)|
      ensures job.claims && job.sameDiff && old(LateAt(1)) ==> stop.None? && LateAt(4)
    {
      token := false;
      var raised, reserved := GetReview();
      if raised {
        return Some(Crash), false;
      }
      if reserved.None? {
        return Some(Finished(2)), false;
      }
      if !reserved.value.status.Running? {
        return Some(Finished(0)), false;
      }
      if !job.claims || !job.sameDiff {
        raised := FailMyRunning();
        return Some(if raised then Crash else Finished(0)), false;
      }
      stop := TakeUp();
      token := stop.None?;
    }

    /** Publish my pid and capture the owner of the reservation. */
    method TakeUp() returns (stop: Option<Result>)
      requires Valid() && me < |rows|
      modifies this`rows, this`log, this`step, this`signalled, this`retired, this`faulted
      ensures Valid() && (old(faulted) ==> faulted) && (old(signalled) ==> signalled) && old(log) <= log
      ensures me < |rows|
      ensures stop == Some(Finished(0)) ==> faulted || !InFlight(rows, me)
      ensures stop.Some? ==> stop.value == Crash || stop.value == Finished(0)
      ensures Quiet(world) && InFlight(old(rows), me)
              ==> stop.None? && rows == Apply(old(rows), Publish(me, pid)) && signalled == old(signalled)
      ensures old(LateAt(2)) ==> stop.None? && LateAt(4)
    {
      var raised, mine := PublishMine();
      if raised || !mine {
        return Some(if raised then Crash else Finished(0));
      }
      var reserved;
      raised, reserved := GetReview();
      // Capturing the owner of a reservation that is over is an error, not an orderly end.
      stop := if raised || !reserved.value.status.Running? then Some(Crash) else None;
    }

    /** Wait for the machine slot, then look again: the reservation may be gone by now. */
    method Admit(job: Job) returns (stop: Option<Result>)
      requires Valid() && me < |rows|
      modifies this`rows, this`log, this`step, this`signalled, this`retired, this`faulted, this`latched, this`audited
      ensures Valid() && Settles(old(rows), rows, me) && old(log) <= log
      ensures (old(faulted) ==> faulted) && (old(signalled) ==> signalled) && (old(latched) ==> latched)
      ensures stop.Some? ==> stop.value == Crash || stop.value == Cancel(None) || stop.value == Finished(0)
      ensures stop == Some(Finished(0)) ==> !InFlight(rows, me)
      ensures Quiet(world) && Clear(old(rows), me) && !old(signalled) && !old(latched) && job.machine
              ==> stop.None? && rows == old(rows) && !signalled && !latched
      ensures !old(latched) && !old(audited) && old(LateAt(4)) ==> stop == Some(Cancel(None)) && LateAt(5) && latched
    {
      // The admission loop polls the token between two tries.
      stop := Heed();
      if stop.Some? {
        return;
      }
      if !job.machine {
        return Some(Crash);
      }
      stop := Heed();
      if stop.None? {
        stop := StillMine();
      }
    }

    /** Look at the token. */
    method Heed() returns (stop: Option<Result>)
      requires Valid()
      modifies this`rows, this`log, this`step, this`signalled, this`retired, this`faulted, this`latched, this`audited
      ensures Valid() && Settles(old(rows), rows, me) && old(log) <= log
      ensures (old(faulted) ==> faulted) && (old(signalled) ==> signalled) && (old(latched) ==> latched)
      ensures stop.Some? ==> stop.value == Crash || stop.value == Cancel(None)
      ensures Quiet(world) && Clear(old(rows), me) && !old(signalled) && !old(latched)
              ==> stop.None? && rows == old(rows) && !signalled && !latched
      ensures !old(latched) && !old(audited) && old(LateAt(4)) ==> stop == Some(Cancel(None)) && LateAt(5) && latched
    {
      var raised, hit := IsSet();
      stop := if raised then Some(Crash) else if hit then Some(Cancel(None)) else None;
    }

    /** With the slot in hand, the reservation may be gone by now. */
    method StillMine() returns (stop: Option<Result>)
      requires Valid() && me < |rows|
      modifies this`rows, this`log, this`step, this`signalled, this`retired, this`faulted
      ensures Valid() && Settles(old(rows), rows, me) && old(log) <= log
      ensures (old(faulted) ==> faulted) && (old(signalled) ==> signalled)
      ensures stop.Some? ==> stop.value == Crash || stop.value == Finished(0)
      ensures stop == Some(Finished(0)) ==> !InFlight(rows, me)
      ensures Quiet(world) && InFlight(old(rows), me) ==> stop.None? && rows == old(rows) && signalled == old(signalled)
    {
      var raised, current := GetReview();
      if raised {
        return Some(Crash);
      }
      if !current.value.status.Running? {
        return Some(Finished(0));
      }
      raised := Fails();
      stop := if raised then Some(Crash) else None;
    }

    /** Record the review's answer, and look at the token on both sides of the commit. */
    method Conclude(ok: bool, axes: Axes) returns (result: Result, ghost armed: bool)
      requires Valid() && me < |rows|
      modifies this`rows, this`log, this`step, this`signalled, this`retired, this`faulted, this`latched, this`audited,
               this`forced, this`finalizationError
      ensures Valid() && me < |rows| && old(log) <= log
      ensures (old(faulted) ==> faulted) && (old(signalled) ==> signalled) && (old(latched) ==> latched)
      ensures result == Crash || result == Finished(0) || (result == Finished(2) && faulted)
      ensures result == Finished(0) ==> !InFlight(rows, me)
      ensures armed ==> latched
      ensures Quiet(world) && Clear(old(rows), me) && !old(signalled) && !old(latched)
              ==> result == Finished(0) && !latched && finalizationError == old(finalizationError)
                  && rows == Apply(old(rows), Finalize(me, if ok then Done else Status.Failed, axes))
      ensures finalizationError ==> old(finalizationError) || faulted
    {
      armed := false;
      var raised, hit := IsSet();
      if raised {
        return Crash, armed;
      }
      var rec := if hit then axes.(degraded := true) else axes;
      result, armed := Answer(if hit || !ok then Status.Failed else Done, rec);
    }

    /** Commit the answer, or find that the reservation is over. */
    method Answer(status: Status, axes: Axes) returns (result: Result, ghost armed: bool)
      requires Valid() && me < |rows| && (status == Done || status == Status.Failed)
      modifies this`rows, this`log, this`step, this`signalled, this`retired, this`faulted, this`latched, this`audited,
               this`forced, this`finalizationError
      ensures Valid() && me < |rows| && old(log) <= log
      ensures (old(faulted) ==> faulted) && (old(signalled) ==> signalled) && (old(latched) ==> latched)
      ensures result == Crash || result == Finished(0) || (result == Finished(2) && faulted)
      ensures result == Finished(0) ==> !InFlight(rows, me)
      ensures armed ==> latched
      ensures Quiet(world) && Clear(old(rows), me) && !old(signalled) && !old(latched)
              ==> result == Finished(0) && !latched && finalizationError == old(finalizationError)
                  && rows == Apply(old(rows), Finalize(me, status, axes))
      ensures finalizationError ==> old(finalizationError) || faulted
    {
      armed := false;
      var raised, applied := FinalizeMine(status, axes);
      if raised {
        return Crash, armed;
      }
      if applied {
        armed := signalled;
        result := PostCommit();
      } else {
        var current;
        raised, current := GetReview();
        result := if raised then Crash else Finished(0);
      }
    }

    /** Demote what was just committed; a token that could not be read is an error whatever comes of it. */
    method Undo(unread: bool) returns (result: Result)
      requires Valid() && me < |rows| && !InFlight(rows, me) && (unread ==> faulted)
      modifies this`rows, this`log, this`step, this`signalled, this`retired, this`faulted, this`forced, this`finalizationError
      ensures Valid() && Settles(old(rows), rows, me) && old(log) <= log
      ensures (old(faulted) ==> faulted) && (old(signalled) ==> signalled)
      ensures if unread then result == Crash else result == Finished(0) || (result == Finished(2) && faulted)
      ensures finalizationError ==> faulted
    {
      var demoted, error := Demote();
      finalizationError := unread || error || !demoted;
      result := if unread then Crash else if demoted then Finished(0) else Finished(2);
    }

    /** The post-commit check: a token set by now demotes what was just committed. */
    method PostCommit() returns (result: Result)
      requires Valid() && me < |rows| && !InFlight(rows, me)
      modifies this`rows, this`log, this`step, this`signalled, this`retired, this`faulted, this`latched, this`audited,
               this`forced, this`finalizationError
      ensures Valid() && Settles(old(rows), rows, me) && old(log) <= log
      ensures (old(faulted) ==> faulted) && (old(signalled) ==> signalled) && (old(latched) || old(signalled) ==> latched)
      ensures result == Crash || result == Finished(0) || (result == Finished(2) && faulted)
      ensures Quiet(world) && !old(signalled) && !old(latched) && !old(rows)[me].cancelRequested
              ==> result == Finished(0) && rows == old(rows) && !latched && finalizationError == old(finalizationError)
      ensures finalizationError ==> old(finalizationError) || faulted
    {
      var raised, hit := IsSet();
      if raised || hit {
        result := Undo(raised);
        if result != Finished(0) {
          return;
        }
      }
      var current;
      raised, current := GetReview();
      result := if raised then Crash else Finished(0);
    }

    /** Once the token is published: the slot, the review, and its record. */
    method Carry(job: Job) returns (result: Result, ghost armed: bool)
      requires Valid() && me < |rows|
      modifies this`rows, this`log, this`step, this`signalled, this`retired, this`faulted, this`latched, this`audited,
               this`forced, this`finalizationError
      ensures Valid() && me < |rows| && old(log) <= log
      ensures (old(faulted) ==> faulted) && (old(signalled) ==> signalled) && (old(latched) ==> latched)
      ensures result.Finished? ==> result.code == 0 || (result.code == 2 && faulted)
      ensures result == Finished(0) ==> !InFlight(rows, me)
      ensures armed ==> latched
      ensures finalizationError ==> old(finalizationError) || faulted
      ensures Quiet(world) && Clear(old(rows), me) && job.machine && job.review.Reviewed? && !old(signalled) && !old(latched)
              ==> result == Finished(0) && !latched && finalizationError == old(finalizationError)
                  && rows == Apply(old(rows), Finalize(me, if job.review.ok then Done else Status.Failed, job.review.axes))
      ensures !old(latched) && !old(audited) && old(LateAt(4)) ==> result == Cancel(None) && LateAt(5) && latched
    {
      armed := false;
      var stop := Admit(job);
      if stop.Some? {
        return stop.value, armed;
      }
      Pause();
      match job.review
      case Interrupted(partial) => result := Cancel(partial);
      case Exploded => result := Crash;
      case Reviewed(ok, axes) => result, armed := Conclude(ok, axes);
    }

    /** Steps 2 to 8 of the worker. */
    method Work(job: Job) returns (result: Result, token: bool, ghost armed: bool)
      requires Valid()
      modifies this`rows, this`log, this`step, this`signalled, this`retired, this`faulted, this`latched, this`audited,
               this`forced, this`finalizationError
      ensures Valid() && old(log) <= log
      ensures (old(faulted) ==> faulted) && (old(signalled) ==> signalled)
      ensures Known(Some(result)) || token ==> me < |rows|
      ensures result.Cancel? ==> me < |rows|
      ensures result == Finished(0) ==> faulted || !InFlight(rows, me)
      ensures result.Finished? ==> result.code == 0 || result.code == 2
      ensures armed ==> latched && token
      ensures result == Finished(2) ==> faulted || me >= |old(rows)|
      ensures token && result == Finished(2) ==> faulted
      ensures finalizationError ==> old(finalizationError) || faulted
      ensures Quiet(world) && Clear(old(rows), me) && Answers(job) && !old(signalled) && !old(latched)
              ==> result == Finished(0) && token && !latched && finalizationError == old(finalizationError)
                  && rows == Concluded(old(rows), me, pid, job.review.ok, job.review.axes)
      ensures !old(latched) && !old(audited) && job.claims && job.sameDiff && old(LateAt(1))
              ==> result == Cancel(None) && token && LateAt(5) && latched
    {
      armed := false;
      var stop;
      stop, token := Begin(job);
      if stop.Some? {
        return stop.value, token, armed;
      }
      result, armed := Carry(job);
    }

    /** Turn what the work came to into a recorded outcome. `None` is an exception out of the worker. */
    method Settle(result: Result, token: bool) returns (code: Option<nat>, ghost readAt: seq<nat>)
      requires Valid() && (finalizationError ==> faulted)
      requires Known(Some(result)) || token || result.Cancel? ==> me < |rows|
      requires result == Finished(0) ==> faulted || !InFlight(rows, me)
      requires result.Finished? ==> result.code == 0 || result.code == 2
      requires token && result == Finished(2) ==> faulted
      modifies this`rows, this`log, this`step, this`signalled, this`retired, this`faulted, this`forced,
               this`audited, this`finalizationError
      ensures Valid() && old(log) <= log && (old(faulted) ==> faulted)
      ensures code.Some? ==> code.value == 0 || code.value == 2
      ensures code.None? ==> faulted
      ensures (readAt != [] <==> result.Cancel?) && (code.None? <==> readAt != [] && world.fails(readAt[0]))
      ensures code == Some(0) && token && latched ==> !Trusted(rows, me)
      ensures code == Some(0) ==> faulted || (me < |rows| && !InFlight(rows, me))
      ensures code == Some(2) ==> faulted || result == Finished(2)
      ensures Quiet(world) && !latched && !old(finalizationError) && result == Finished(0)
              ==> code == Some(0) && rows == old(rows)
      ensures result == Cancel(None) && token && latched && old(LateAt(5)) ==> forced
    {
      var c := 0;
      readAt := [];
      match result {
        case Finished(k) => c := k;
        case Crash => var raised := FailMyRunning();
        case Cancel(partial) =>
          code := RecordCancellation(partial);
          readAt := [step];
          if code.None? {
            return;
          }
      }
      var settled := Complete(token, c);
      code := Some(settled);
    }

    /**
     * The whole worker. A code of 0 whose token was set before the post-commit check leaves no
     * trustworthy row of its own; on a store that never fails the worker always has an outcome, an
     * orderly one leaves no reservation in flight, and a superseded row is never touched again.
     */
    method Run(job: Job) returns (code: Option<nat>, token: bool, ghost armed: bool, ghost readAt: seq<nat>)
      requires Valid() && !latched && !finalizationError
      modifies this
      ensures Valid() && old(log) <= log
      ensures code.Some? ==> code.value == 0 || code.value == 2
      ensures armed ==> latched && token
      ensures code == Some(0) && token && latched ==> !Trusted(rows, me)
      // An exception leaves exactly when a cancellation is being recorded and its last read fails.
      ensures (code.None? <==> readAt != [] && world.fails(readAt[0])) && (code.None? ==> faulted)
      ensures code == Some(0) ==> faulted || (me < |rows| && !InFlight(rows, me))
      ensures retired != [] ==> me < |rows| && (rows[me] == retired[0] <==> !forced) && (forced ==> faulted)
      ensures code == Some(2) ==> faulted || me >= |old(rows)|
      // Left alone, a worker publishes exactly the answer it was given.
      ensures Quiet(world) && Clear(old(rows), me) && Answers(job) && !old(signalled)
              ==> code == Some(0) && rows == Concluded(old(rows), me, pid, job.review.ok, job.review.axes)
      ensures !old(audited) && job.claims && job.sameDiff && old(LateAt(0)) ==> forced
    {
      armed, token, readAt := false, false, [];
      var raised := Fails();
      if raised {
        return Some(2), token, armed, readAt;
      }
      var result;
      result, token, armed := Work(job);
      code, readAt := Settle(result, token);
    }

    /** Whether the outcome so far shows the record exists. */
    ghost predicate Known(stop: Option<Result>)
      reads this`faulted
    {
      !faulted && stop != Some(Finished(2))
    }
  }

  /**
   * A worker that does rewrite its superseded record: told to stop, it fails to settle its reservation, and
   * by the time its unconditional demotion commits, a newer push has retired the record.
   */
  method LateWorker() returns (p: Process)
    ensures p.Valid() && p.faulted && |p.retired| == 1 && p.retired[0].status.Superseded?
    ensures p.me < |p.rows| && p.rows[p.me].status.Failed? && p.rows[p.me] != p.retired[0]
  {
    var first := Reserve(0, 0, 0, false);
    var world := World((k: nat) => if k == 12 then [Reserve(0, 1, 0, false)] else [], (k: nat) => k == 6, (k: nat) => k == 0);
    ghost var log := [first];
    ReplaySnoc([], first);
    assert [] + [first] == log;
    p := new Process(0, 7, world, [first]);
    var code, token;
    ghost var armed, readAt;
    code, token, armed, readAt := p.Run(Job(true, true, true, Exploded));
  }

  /** What one demotion door achieved. */
  datatype Tried = Cleared | NotMine | Again

  /** How steps 2 to 8 end. `Cancel` and `Crash` are exceptions, handled differently by the caller. */
  datatype Result = Finished(code: nat) | Cancel(partial: Option<Axes>) | Crash
}
