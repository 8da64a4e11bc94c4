/** Review records as they are read from JSON, and the one trust invariant over them. */
module Records {
  import opened Ticks

  datatype Field =
    | Id | Branch | BaseSha | DiffHash | Findings | FindingsTotal
    | ParseOk | Degraded | DiffTruncated | Trustworthy
    | FailureReason | LegacyTrust | SourceName | Status | CompletedAt | Other(name: string)

  datatype Json =
    | Null | Bool(b: bool) | Number(n: int) | Text(s: string) | List(items: seq<Json>) | Object(fields: map<Field, Json>)

  type Record = map<Field, Json>

  /** An absent field reads as null. */
  function Get(r: Record, f: Field): Json
  {
    if f in r then r[f] else Null
  }

  predicate IsTrustworthy(parseOk: bool, degraded: bool, truncated: bool)
  {
    parseOk && !degraded && !truncated
  }

  /** A self-consistent artifact: its identity is text, and it holds exactly the findings it counts. */
  predicate ValidArtifact(j: Json)
  {
    && j.Object?
    && (forall f :: f in [Id, Branch, BaseSha] ==> f in j.fields && j.fields[f].Text?)
    && Findings in j.fields && j.fields[Findings].List?
    && (forall k :: 0 <= k < |j.fields[Findings].items| ==> j.fields[Findings].items[k].Object?)
    && FindingsTotal in j.fields && j.fields[FindingsTotal] == Number(|j.fields[Findings].items|)
  }

  /** What the store keeps: trust recomputed from strict axes, and a completion time if the record brings none. */
  function Normalized(r: Record, now: string): Record
    requires StrictAxes(r)
  {
    var trusted := r[Trustworthy := Bool(IsTrustworthy(r[ParseOk].b, r[Degraded].b, r[DiffTruncated].b))];
    if NeedsStamp(r) then trusted[CompletedAt := Text(now)] else trusted
  }

  predicate StrictAxes(r: Record)
  {
    forall f :: f in [ParseOk, Degraded, DiffTruncated] ==> f in r && r[f].Bool?
  }

  predicate NeedsStamp(r: Record)
  {
    Get(r, Status) != Text("running") && Get(r, CompletedAt).Null?
  }
}
