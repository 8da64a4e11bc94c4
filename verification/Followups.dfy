/** What a conditional follow-up pass depends on, as values: semantic outputs and input bindings. */
module Followups {
  import opened Seqs
  import opened Ticks

  // ----------------------------------------------------------------- payloads

  /** The reviewer's answer; `content` stands for its summary, findings and stop reason. */
  datatype Answer = Answer(parseOk: bool, degraded: bool, truncated: bool, failed: bool, content: nat)

  /** Who answered, and the operational note of a generation that reused the answer. */
  datatype Origin = Origin(provider: string, model: string, effort: string, adapter: string,
                           continuationSource: Option<nat>, reused: bool)

  datatype Payload = Payload(answer: Answer, accepted: Option<Origin>, provenance: Origin, execution: Option<nat>)

  /** A follow-up's size cap annotates coverage; it does not demote. */
  predicate Usable(p: Payload)
  {
    p.answer.parseOk && !p.answer.degraded && !p.answer.failed
  }

  predicate UsableUpstream(p: Payload)
  {
    Usable(p) && !p.answer.truncated
  }

  datatype Actual = Actual(provider: string, model: string, effort: string, adapter: string)

  datatype Semantic = Semantic(answer: Answer, actual: Actual, execution: Option<nat>)

  function SemanticPayload(p: Payload): Semantic
  {
    var o := if p.accepted.Some? then p.accepted.value else p.provenance;
    Semantic(p.answer, Actual(o.provider, o.model, o.effort, o.adapter), p.execution)
  }

  /** The copy a later generation keeps. */
  function Reuse(p: Payload, source: nat): Payload
  {
    p.(provenance := p.provenance.(continuationSource := Some(source), reused := true))
  }

  /** The reuse annotation is invisible to semantic identity and to usability, however often it is added. */
  lemma ReuseIsInvisible(p: Payload, source: nat)
    ensures SemanticPayload(Reuse(p, source)) == SemanticPayload(p)
    ensures Usable(Reuse(p, source)) == Usable(p) && UsableUpstream(Reuse(p, source)) == UsableUpstream(p)
    ensures Reuse(p, source).provenance.reused
  {
  }

  // ----------------------------------------------------------------- bindings

  datatype Role = Batch | Integration | Security | Skeptic

  datatype Reason = Scheduled | NotScheduled | NotClean | PreparationFailed

  /** Equal inputs have equal digests: outputs and bindings are compared by value. */
  datatype Dependency = Dependency(role: Role, index: nat, diff: nat, boundary: nat, prompt: Option<nat>,
                                   output: Option<Semantic>, binding: Option<Binding>, known: bool)

  datatype Binding = Binding(role: Role, content: nat, dependencies: seq<Dependency>, aggregate: nat,
                             reason: Reason, prompt: Option<nat>)

  predicate IsScheduled(b: Binding)
  {
    b.reason.Scheduled? || b.reason.PreparationFailed?
  }

  predicate WellFormed(b: Binding)
  {
    && (b.role.Security? || b.role.Skeptic?)
    && (!IsScheduled(b) ==> b.prompt.None?)
    && (b.reason.Scheduled? ==> b.prompt.Some?)
  }

  // --------------------------------------------------------------- checkpoints

  /** A batch or integration checkpoint; complete once it has a payload. The plan may leave its prompt open. */
  datatype Upstream = Upstream(role: Role, index: nat, diff: nat, boundary: nat, planned: Option<nat>, prompt: Option<nat>,
                              payload: Option<Payload>)

  /** An immutable copy of an earlier generation's follow-up. */
  datatype Candidate = Candidate(source: nat, binding: Binding, payload: Payload, completedAt: nat)

  datatype Mismatch = UpstreamChanged | ScheduleChanged | PromptChanged | CandidateUnusable

  datatype Followup = Followup(diff: nat, boundary: nat, prompt: Option<nat>, payload: Option<Payload>, completedAt: nat,
                               binding: Option<Binding>, candidate: Option<Candidate>, invalidation: Option<Mismatch>)

  /** One orchestration: its content identity, and its checkpoints in listing order. */
  datatype Generation = Generation(content: nat, upstream: seq<Upstream>, security: Option<Followup>, skeptic: Option<Followup>)

  function Known(p: Payload): bool
  {
    SemanticPayload(p).actual.provider != ""
  }

  function UpstreamDependency(u: Upstream): Dependency
  {
    Dependency(u.role, u.index, u.diff, u.boundary, u.prompt,
               if u.payload.Some? then Some(SemanticPayload(u.payload.value)) else None, None,
               u.payload.Some? && Known(u.payload.value))
  }

  function SecurityDependency(f: Followup): Dependency
  {
    Dependency(Security, 0, f.diff, f.boundary, f.prompt,
               if f.payload.Some? then Some(SemanticPayload(f.payload.value)) else None, f.binding,
               if f.payload.Some? then Known(f.payload.value) else f.binding.Some? && !IsScheduled(f.binding.value))
  }

  function UpstreamDependencies(us: seq<Upstream>): (r: seq<Dependency>)
    ensures |r| == |us|
  {
    if us == [] then [] else UpstreamDependencies(us[..|us| - 1]) + [UpstreamDependency(us[|us| - 1])]
  }

  /** Everything before this role: the security pass sees the batches, the skeptic the security pass too. */
  function Dependencies(g: Generation, role: Role): seq<Dependency>
  {
    UpstreamDependencies(g.upstream)
    + (if role.Skeptic? && g.security.Some? then [SecurityDependency(g.security.value)] else [])
  }

  function BuildBinding(g: Generation, role: Role, aggregate: nat, reason: Reason, prompt: Option<nat>): Binding
  {
    Binding(role, g.content, Dependencies(g, role), aggregate, reason, prompt)
  }

  /** The first difference, in the order it is looked for. */
  function BindingMismatch(was: Binding, now: Binding): Mismatch
  {
    if was.dependencies != now.dependencies then UpstreamChanged
    else if was.reason != now.reason then ScheduleChanged
    else if was.prompt != now.prompt then PromptChanged
    else UpstreamChanged
  }

  function RowOf(g: Generation, role: Role): Option<Followup>
  {
    if role.Security? then g.security else if role.Skeptic? then g.skeptic else None
  }

  function WithRow(g: Generation, role: Role, f: Followup): Generation
    requires role.Security? || role.Skeptic?
  {
    if role.Security? then g.(security := Some(f)) else g.(skeptic := Some(f))
  }

  /** A binding still describes this generation: same content, and the dependencies as they stand now. */
  predicate StillTrue(g: Generation, b: Binding)
  {
    WellFormed(b) && b.content == g.content && RowOf(g, b.role).Some? && b.dependencies == Dependencies(g, b.role)
  }
}
