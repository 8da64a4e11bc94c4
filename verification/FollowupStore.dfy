/** Follow-up checkpoints across continuation generations: binding, running, seeding, promoting. */
module FollowupStore {
  import opened Followups
  import opened Ticks

  /** A follow-up that really ran: the inputs it was bound to, and what came out. */
  type Run = (Binding, Semantic)

  // ------------------------------------------------------------- what is kept

  /** A payload only ever stands under the binding that some real run had. */
  ghost predicate FollowupOk(f: Followup, role: Role, ran: set<Run>)
  {
    && (f.binding.Some? ==> f.binding.value.role == role && f.prompt == f.binding.value.prompt)
    && (f.payload.Some? ==> f.binding.Some? && IsScheduled(f.binding.value)
                            && (f.binding.value, SemanticPayload(f.payload.value)) in ran)
    && (f.candidate.Some? ==> CandidateOk(f.candidate.value, role, ran) && f.binding.None?)
  }

  ghost predicate CandidateOk(c: Candidate, role: Role, ran: set<Run>)
  {
    c.binding.role == role && Usable(c.payload) && (c.binding, SemanticPayload(c.payload)) in ran
  }

  ghost predicate GenerationOk(g: Generation, ran: set<Run>)
  {
    && (g.security.Some? ==> FollowupOk(g.security.value, Security, ran))
    && (g.skeptic.Some? ==> FollowupOk(g.skeptic.value, Skeptic, ran))
  }

  ghost predicate Legitimate(gens: seq<Generation>, ran: set<Run>)
  {
    forall i :: 0 <= i < |gens| ==> GenerationOk(gens[i], ran)
  }

  lemma MoreRuns(gens: seq<Generation>, ran: set<Run>, more: set<Run>)
    requires Legitimate(gens, ran) && ran <= more
    ensures Legitimate(gens, more)
  {
    forall i | 0 <= i < |gens|
      ensures GenerationOk(gens[i], more)
    {
      assert GenerationOk(gens[i], ran);
    }
  }

  // ------------------------------------------------------------------ binding

  /** A candidate is promoted exactly when its binding is this one, the pass is scheduled and every provider is known. */
  predicate Promotes(c: Candidate, b: Binding)
  {
    c.binding == b && IsScheduled(b) && ProvidersKnown(c, b)
  }

  predicate ProvidersKnown(c: Candidate, b: Binding)
  {
    Followups.Known(c.payload) && forall k :: 0 <= k < |b.dependencies| ==> b.dependencies[k].known
  }

  /** The row after it is bound for the first time. */
  function Bound(f: Followup, b: Binding): Followup
  {
    var promoted := f.candidate.Some? && Promotes(f.candidate.value, b);
    f.(binding := Some(b), prompt := b.prompt, candidate := None,
       payload := if promoted then Some(Reuse(f.candidate.value.payload, f.candidate.value.source)) else None,
       completedAt := if promoted then f.candidate.value.completedAt else f.completedAt,
       invalidation := if f.candidate.None? || promoted then None
                       else if ProvidersKnown(f.candidate.value, b) then Some(BindingMismatch(f.candidate.value.binding, b))
                       else Some(CandidateUnusable))
  }

  lemma BoundOk(f: Followup, b: Binding, ran: set<Run>)
    requires FollowupOk(f, b.role, ran) && f.binding.None?
    ensures FollowupOk(Bound(f, b), b.role, ran)
  {
    if f.candidate.Some? {
      ReuseIsInvisible(f.candidate.value.payload, f.candidate.value.source);
    }
  }

  // ------------------------------------------------------------------ seeding

  function SeededUpstream(us: seq<Upstream>, source: nat, integrate: bool): (r: seq<Upstream>)
    ensures |r| == |us|
  {
    if us == [] then []
    else
      var u := us[|us| - 1];
      SeededUpstream(us[..|us| - 1], source, integrate)
      + [if u.payload.Some? && UsableUpstream(u.payload.value) && (u.role.Batch? || integrate)
         then u.(payload := Some(Reuse(u.payload.value, source)))
         else u.(payload := None, prompt := u.planned)]
  }

  predicate BatchesUsable(us: seq<Upstream>)
  {
    forall k :: 0 <= k < |us| && us[k].role.Batch? ==> us[k].payload.Some? && UsableUpstream(us[k].payload.value)
  }

  /** The candidate a source row gives its child; `None` inside is none, outside a refusal. */
  function CandidateOf(g: Generation, f: Followup, source: nat): Option<Option<Candidate>>
  {
    if f.payload.Some? then
      if !Usable(f.payload.value) then Some(None)
      else if f.binding.None? || !StillTrue(g, f.binding.value) then None
      else Some(Some(Candidate(source, f.binding.value, f.payload.value, f.completedAt)))
    else Some(f.candidate)
  }

  function Blank(f: Followup, c: Option<Candidate>): Followup
  {
    Followup(f.diff, f.boundary, None, None, 0, None, c, None)
  }

  predicate Seedable(g: Generation, source: nat)
  {
    && (g.security.Some? ==> CandidateOf(g, g.security.value, source).Some?)
    && (g.skeptic.Some? ==> CandidateOf(g, g.skeptic.value, source).Some?)
  }

  /** One fresh generation: usable evidence copied, follow-ups blank beside their candidates. */
  function Child(g: Generation, source: nat): Generation
    requires Seedable(g, source)
  {
    Generation(g.content, SeededUpstream(g.upstream, source, BatchesUsable(g.upstream)),
               if g.security.None? then None
               else Some(Blank(g.security.value, CandidateOf(g, g.security.value, source).value)),
               if g.skeptic.None? then None
               else Some(Blank(g.skeptic.value, CandidateOf(g, g.skeptic.value, source).value)))
  }

  lemma ChildOk(g: Generation, source: nat, ran: set<Run>)
    requires GenerationOk(g, ran) && Seedable(g, source)
    ensures GenerationOk(Child(g, source), ran)
  {
  }

  // ------------------------------------------------------------------- the store

  /** A bound row's binding never changes. */
  ghost predicate KeepsBindings(a: seq<Generation>, b: seq<Generation>)
  {
    |a| <= |b| && forall i, role :: 0 <= i < |a| ==> KeepsBinding(RowOf(a[i], role), RowOf(b[i], role))
  }

  predicate KeepsBinding(was: Option<Followup>, now: Option<Followup>)
  {
    was.Some? && was.value.binding.Some? ==> now.Some? && now.value.binding == was.value.binding
  }

  lemma KeepsBindingsTrans(a: seq<Generation>, b: seq<Generation>, c: seq<Generation>)
    requires KeepsBindings(a, b) && KeepsBindings(b, c)
    ensures KeepsBindings(a, c)
  {
    forall i, role | 0 <= i < |a|
      ensures KeepsBinding(RowOf(a[i], role), RowOf(c[i], role))
    {
      assert KeepsBinding(RowOf(a[i], role), RowOf(b[i], role));
      assert KeepsBinding(RowOf(b[i], role), RowOf(c[i], role));
    }
  }

  /** Any call on the store. */
  datatype Call =
    | CallCreate(g: Generation)
    | CallComplete(id: nat, k: nat, p: Payload)
    | CallBind(id: nat, b: Binding, s: Standing)
    | CallExecute(id: nat, role: Role, p: Payload, at: nat, claimed: bool)
    | CallFork(source: nat, s: Standing, existing: Option<nat>)

  /**
   * What the surrounding tables say at one call: the request owns the orchestration, the orchestration is
   * open to the call (unexpired, and not already trusted), identity and passes match the plan, and some
   * claim is still live.
   */
  datatype Standing = Standing(owned: bool, open: bool, planned: bool, live: bool)

  predicate Entitled(s: Standing) { s.owned && s.open && s.planned }

  /** A refusal, the child a previous fork of the same identity left, or a new one. */
  datatype Forked = Refused | Existing(id: nat) | New(id: nat)

  class Store {
    var generations: seq<Generation>
    ghost var ran: set<Run>

    ghost predicate Valid()
      reads this
    {
      Legitimate(generations, ran)
    }

    constructor ()
      ensures Valid() && generations == [] && ran == {}
    {
      generations, ran := [], {};
    }

    /** A new orchestration: everything pending. */
    method Create(g: Generation) returns (id: nat)
      requires Valid()
      requires g.security.Some? ==> g.security.value == Blank(g.security.value, None)
      requires g.skeptic.Some? ==> g.skeptic.value == Blank(g.skeptic.value, None)
      modifies this
      ensures Valid() && ran == old(ran) && id == |old(generations)| && generations == old(generations) + [g]
      ensures KeepsBindings(old(generations), generations)
    {
      id := |generations|;
      generations := generations + [g];
    }

    /** Complete a batch or integration checkpoint that has no result yet. */
    method CompleteUpstream(id: nat, k: nat, p: Payload) returns (done: bool)
      requires Valid() && id < |generations| && k < |generations[id].upstream|
      modifies this
      ensures Valid() && ran == old(ran)
      ensures done <==> old(generations)[id].upstream[k].payload.None?
      ensures generations == if done
        then var g := old(generations)[id];
             old(generations)[id := g.(upstream := g.upstream[k := g.upstream[k].(payload := Some(p))])]
        else old(generations)
      ensures KeepsBindings(old(generations), generations)
    {
      var g := generations[id];
      done := g.upstream[k].payload.None?;
      if done {
        assert GenerationOk(g, ran);
        generations := generations[id := g.(upstream := g.upstream[k := g.upstream[k].(payload := Some(p))])];
      }
    }

    /**
     * Bind a follow-up to its inputs. False is a refusal, and changes nothing; so does binding again.
     * A first binding promotes the candidate exactly when `Promotes` says so.
     */
    method Bind(id: nat, b: Binding, s: Standing) returns (ok: bool)
      requires Valid() && id < |generations|
      modifies this
      ensures Valid() && ran == old(ran)
      ensures ok <==> Entitled(s) && StillTrue(old(generations)[id], b)
                      && ((RowOf(old(generations)[id], b.role).value.binding.None? && !s.live)
                          || RowOf(old(generations)[id], b.role).value.binding == Some(b))
      ensures generations == if ok && RowOf(old(generations)[id], b.role).value.binding.None?
        then old(generations)[id := WithRow(old(generations)[id], b.role, Bound(RowOf(old(generations)[id], b.role).value, b))]
        else old(generations)
      ensures KeepsBindings(old(generations), generations)
    {
      var g := generations[id];
      if !Entitled(s) || !StillTrue(g, b) {
        return false;
      }
      var f := RowOf(g, b.role).value;
      if f.binding.Some? {
        return f.binding.value == b;
      }
      if s.live {
        return false;
      }
      assert GenerationOk(g, ran);
      BoundOk(f, b, ran);
      generations := generations[id := WithRow(g, b.role, Bound(f, b))];
      ok := true;
    }

    /** Complete, under a claim that still holds, a bound, scheduled follow-up whose inputs still stand: a real run. */
    method Execute(id: nat, role: Role, p: Payload, at: nat, claimed: bool) returns (done: bool)
      requires Valid() && id < |generations| && (role.Security? || role.Skeptic?)
      modifies this
      ensures Valid() && old(ran) <= ran
      ensures var row := RowOf(old(generations)[id], role);
              && (done <==> claimed && row.Some? && row.value.payload.None? && row.value.binding.Some?
                            && IsScheduled(row.value.binding.value) && StillTrue(old(generations)[id], row.value.binding.value))
              && (done ==> ran == old(ran) + {(row.value.binding.value, SemanticPayload(p))})
              && (!done ==> ran == old(ran))
              && generations == if done
                 then old(generations)[id := WithRow(old(generations)[id], role, row.value.(payload := Some(p), completedAt := at))]
                 else old(generations)
      ensures KeepsBindings(old(generations), generations)
    {
      var g := generations[id];
      var row := RowOf(g, role);
      if !claimed || row.None? || row.value.payload.Some? || row.value.binding.None? {
        return false;
      }
      var b := row.value.binding.value;
      if !IsScheduled(b) || !StillTrue(g, b) {
        return false;
      }
      assert GenerationOk(g, ran);
      MoreRuns(generations, ran, ran + {(b, SemanticPayload(p))});
      ran := ran + {(b, SemanticPayload(p))};
      assert GenerationOk(g, ran);
      generations := generations[id := WithRow(g, role, row.value.(payload := Some(p), completedAt := at))];
      done := true;
    }

    /**
     * Fork a continuation of `source`. A refusal, and the return of the child that already exists, change
     * nothing.
     */
    method Fork(source: nat, s: Standing, existing: Option<nat>) returns (r: Forked)
      requires Valid() && source < |generations|
      modifies this
      ensures Valid() && ran == old(ran)
      ensures r == if !Entitled(s) || s.live then Refused
                   else if existing.Some? then Existing(existing.value)
                   else if Seedable(old(generations)[source], source) then New(|old(generations)|)
                   else Refused
      ensures generations == if r.New? then old(generations) + [Child(old(generations)[source], source)] else old(generations)
      ensures KeepsBindings(old(generations), generations)
    {
      if !Entitled(s) || s.live {
        return Refused;
      }
      if existing.Some? {
        return Existing(existing.value);
      }
      var g := generations[source];
      if !Seedable(g, source) {
        return Refused;
      }
      assert GenerationOk(g, ran);
      ChildOk(g, source, ran);
      r := New(|generations|);
      generations := generations + [Child(g, source)];
    }

    /** Over any run of calls: bindings are permanent, and every held output comes from a real run. */
    method Drive(script: seq<Call>)
      requires Valid()
      modifies this
      ensures Valid() && old(ran) <= ran && KeepsBindings(old(generations), generations)
    {
      for i := 0 to |script|
        invariant Valid() && old(ran) <= ran && KeepsBindings(old(generations), generations)
      {
        ghost var before := generations;
        Perform(script[i]);
        KeepsBindingsTrans(old(generations), before, generations);
      }
    }

    method Perform(c: Call)
      requires Valid()
      modifies this
      ensures Valid() && old(ran) <= ran && KeepsBindings(old(generations), generations)
    {
      match c {
        case CallCreate(g) =>
          if (g.security.Some? ==> g.security.value == Blank(g.security.value, None))
             && (g.skeptic.Some? ==> g.skeptic.value == Blank(g.skeptic.value, None)) {
            var id := Create(g);
          }
        case CallComplete(id, k, p) =>
          if id < |generations| && k < |generations[id].upstream| {
            var done := CompleteUpstream(id, k, p);
          }
        case CallBind(id, b, s) =>
          if id < |generations| {
            var ok := Bind(id, b, s);
          }
        case CallExecute(id, role, p, at, claimed) =>
          if id < |generations| && (role.Security? || role.Skeptic?) {
            var done := Execute(id, role, p, at, claimed);
          }
        case CallFork(source, s, existing) =>
          if source < |generations| {
            var r := Fork(source, s, existing);
          }
      }
    }

    /** Whatever a generation holds as a follow-up's output, some real run produced it from an equal binding. */
    lemma ReusedEqualsExecuted(id: nat, role: Role)
      requires Valid() && id < |generations| && RowOf(generations[id], role).Some?
      requires RowOf(generations[id], role).value.payload.Some?
      ensures var f := RowOf(generations[id], role).value;
              f.binding.Some? && (f.binding.value, SemanticPayload(f.payload.value)) in ran
    {
      assert GenerationOk(generations[id], ran);
    }
  }

  // --------------------------------------------------- reuse equals recomputation

  predicate UpstreamReusable(us: seq<Upstream>)
  {
    forall k :: 0 <= k < |us| ==> us[k].payload.Some? && UsableUpstream(us[k].payload.value) && Followups.Known(us[k].payload.value)
  }

  predicate FollowupReusable(g: Generation, f: Followup, role: Role)
  {
    && f.payload.Some? && Usable(f.payload.value) && Followups.Known(f.payload.value)
    && f.binding.Some? && f.binding.value.role == role && IsScheduled(f.binding.value) && StillTrue(g, f.binding.value)
    && f.prompt == f.binding.value.prompt
  }

  /** Everything complete, usable and attributed, and both follow-ups still bound to what is there. */
  predicate Reusable(g: Generation)
  {
    && UpstreamReusable(g.upstream)
    && g.security.Some? && FollowupReusable(g, g.security.value, Security)
    && g.skeptic.Some? && FollowupReusable(g, g.skeptic.value, Skeptic)
  }

  /** The same aggregate, decision and prompt, asked of this generation. */
  function Again(g: Generation, was: Binding): Binding
  {
    BuildBinding(g, was.role, was.aggregate, was.reason, was.prompt)
  }

  lemma {:induction false} SeededSame(us: seq<Upstream>, source: nat)
    requires UpstreamReusable(us)
    ensures UpstreamDependencies(SeededUpstream(us, source, true)) == UpstreamDependencies(us)
    ensures UpstreamReusable(SeededUpstream(us, source, true))
  {
    if us != [] {
      var k := |us| - 1;
      SeededSame(us[..k], source);
      ReuseIsInvisible(us[k].payload.value, source);
      var seeded := SeededUpstream(us, source, true);
      assert seeded[..k] == SeededUpstream(us[..k], source, true);
    }
  }

  lemma {:induction false} UpstreamKnown(us: seq<Upstream>, i: nat)
    requires UpstreamReusable(us) && i < |us|
    ensures UpstreamDependencies(us)[i].known
  {
    if i < |us| - 1 {
      UpstreamKnown(us[..|us| - 1], i);
    }
  }

  lemma ProvidersAllKnown(g: Generation, role: Role)
    requires UpstreamReusable(g.upstream) && (role.Security? || (g.security.Some? && SecurityDependency(g.security.value).known))
    ensures forall k :: 0 <= k < |Dependencies(g, role)| ==> Dependencies(g, role)[k].known
  {
    forall k | 0 <= k < |g.upstream|
      ensures UpstreamDependencies(g.upstream)[k].known
    {
      UpstreamKnown(g.upstream, k);
    }
  }

  /** A child that binds the same decision and prompt to the same dependencies takes over the source's output. */
  lemma Promoted(g: Generation, c: Generation, role: Role, source: nat)
    requires (role.Security? || role.Skeptic?) && RowOf(g, role).Some? && FollowupReusable(g, RowOf(g, role).value, role)
    requires Dependencies(c, role) == Dependencies(g, role) && c.content == g.content
    requires forall k :: 0 <= k < |Dependencies(g, role)| ==> Dependencies(g, role)[k].known
    requires var f := RowOf(g, role).value;
             RowOf(c, role) == Some(Blank(f, Some(Candidate(source, f.binding.value, f.payload.value, f.completedAt))))
    ensures var f := RowOf(g, role).value;
            Again(c, f.binding.value) == f.binding.value && StillTrue(c, f.binding.value)
            && Bound(RowOf(c, role).value, f.binding.value)
               == f.(payload := Some(Reuse(f.payload.value, source)), candidate := None, invalidation := None)
  {
  }

  /** The continuation of a reusable generation, with both follow-ups bound again, security first. */
  function Continued(g: Generation, source: nat): Generation
    requires Reusable(g)
  {
    var c := Child(g, source);
    var c1 := WithRow(c, Security, Bound(c.security.value, Again(c, g.security.value.binding.value)));
    WithRow(c1, Skeptic, Bound(c1.skeptic.value, Again(c1, g.skeptic.value.binding.value)))
  }

  lemma SecurityAgain(g: Generation, source: nat)
    requires Reusable(g)
    ensures var c := Child(g, source);
            var f := g.security.value;
            Bound(c.security.value, Again(c, f.binding.value))
            == f.(payload := Some(Reuse(f.payload.value, source)), candidate := None, invalidation := None)
  {
    SeededSame(g.upstream, source);
    ProvidersAllKnown(g, Security);
    Promoted(g, Child(g, source), Security, source);
  }

  lemma SkepticAgain(g: Generation, c1: Generation, source: nat)
    requires Reusable(g)
    requires c1.content == g.content && UpstreamDependencies(c1.upstream) == UpstreamDependencies(g.upstream)
    requires var f := g.security.value;
             c1.security == Some(f.(payload := Some(Reuse(f.payload.value, source)), candidate := None, invalidation := None))
    requires c1.skeptic == Child(g, source).skeptic
    ensures var f := g.skeptic.value;
            Bound(c1.skeptic.value, Again(c1, f.binding.value))
            == f.(payload := Some(Reuse(f.payload.value, source)), candidate := None, invalidation := None)
    ensures Dependencies(c1, Skeptic) == Dependencies(g, Skeptic)
  {
    ReuseIsInvisible(g.security.value.payload.value, source);
    assert SecurityDependency(c1.security.value) == SecurityDependency(g.security.value);
    ProvidersAllKnown(g, Skeptic);
    Promoted(g, c1, Skeptic, source);
  }

  /** What one continuation leaves the same: the bindings, the semantic outputs, and that it can be continued again. */
  predicate SameOutputs(a: Generation, b: Generation)
  {
    && a.security.Some? && b.security.Some? && a.skeptic.Some? && b.skeptic.Some?
    && a.security.value.binding == b.security.value.binding && a.skeptic.value.binding == b.skeptic.value.binding
    && a.security.value.payload.Some? && b.security.value.payload.Some?
    && a.skeptic.value.payload.Some? && b.skeptic.value.payload.Some?
    && SemanticPayload(a.security.value.payload.value) == SemanticPayload(b.security.value.payload.value)
    && SemanticPayload(a.skeptic.value.payload.value) == SemanticPayload(b.skeptic.value.payload.value)
  }

  /** When nothing upstream, no decision and no prompt changed, both follow-ups are reused. */
  lemma BothReused(g: Generation, source: nat)
    requires Reusable(g)
    ensures Reusable(Continued(g, source)) && SameOutputs(g, Continued(g, source))
    ensures Continued(g, source).security.value.payload.value.provenance.reused
    ensures Continued(g, source).skeptic.value.payload.value.provenance.reused
  {
    var c := Child(g, source);
    SeededSame(g.upstream, source);
    SecurityAgain(g, source);
    var c1 := WithRow(c, Security, Bound(c.security.value, Again(c, g.security.value.binding.value)));
    SkepticAgain(g, c1, source);
    ReuseIsInvisible(g.security.value.payload.value, source);
    ReuseIsInvisible(g.skeptic.value.payload.value, source);
  }

  function Generations(g: Generation, sources: seq<nat>): Option<Generation>
  {
    if sources == [] then Some(g)
    else
      match Generations(g, sources[..|sources| - 1])
      case None => None
      case Some(last) => if Reusable(last) then Some(Continued(last, sources[|sources| - 1])) else None
  }

  /** Through any number of continuations, both follow-ups keep their bindings and their semantic outputs. */
  lemma {:induction false} ReusedForever(g: Generation, sources: seq<nat>)
    requires Reusable(g)
    ensures Generations(g, sources).Some?
    ensures Reusable(Generations(g, sources).value) && SameOutputs(g, Generations(g, sources).value)
  {
    if sources != [] {
      var front := sources[..|sources| - 1];
      ReusedForever(g, front);
      BothReused(Generations(g, front).value, sources[|sources| - 1]);
    }
  }
}
