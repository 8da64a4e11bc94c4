/** The gate's decision on the newest trustworthy record of a diff, and the record it must leave. */
module Gate {
  import opened LegacyImport
  import opened Records
  import opened Seqs
  import opened Ticks

  /** Everything the decision reads. `found` is the stored artifact of the newest trustworthy row of this diff. */
  datatype Facts = Facts(emptyDiff: bool, diffHash: string, baseSha: string, found: Option<Json>, triaged: set<string>,
                         keyOf: Json -> string)

  datatype Answer = Pass | OpenFindings | NoReview | InvalidArtifact

  function Code(a: Answer): nat
  {
    match a case Pass => 0 case OpenFindings => 1 case _ => 2
  }

  predicate BoolAt(r: Record, f: Field)
  {
    f in r && r[f].Bool?
  }

  /** A record that may certify this content: whole, strictly typed, trusted by its own axes, of this diff and base. */
  predicate Certifies(j: Json, diffHash: string, baseSha: string)
  {
    && ValidArtifact(j)
    && var r := j.fields;
       && BoolAt(r, ParseOk) && BoolAt(r, Degraded) && BoolAt(r, DiffTruncated) && BoolAt(r, Trustworthy)
       && IsTrustworthy(r[ParseOk].b, r[Degraded].b, r[DiffTruncated].b) && r[Trustworthy].b
       && Get(r, DiffHash) == Text(diffHash) && r[BaseSha] == Text(baseSha)
  }

  function Open(f: Facts, findings: seq<Json>): seq<Json>
  {
    if findings == [] then []
    else
      var front := Open(f, findings[..|findings| - 1]);
      var x := findings[|findings| - 1];
      if f.keyOf(x) in f.triaged then front else front + [x]
  }

  lemma {:induction false} NothingOpen(f: Facts, findings: seq<Json>)
    ensures Open(f, findings) == [] <==> forall k :: 0 <= k < |findings| ==> f.keyOf(findings[k]) in f.triaged
  {
    if findings != [] {
      var k := |findings| - 1;
      NothingOpen(f, findings[..k]);
      assert findings == findings[..k] + [findings[k]];
    }
  }

  method OpenOf(f: Facts, findings: seq<Json>) returns (open: seq<Json>)
    ensures open == Open(f, findings)
  {
    open := [];
    for i := 0 to |findings|
      invariant open == Open(f, findings[..i])
    {
      TakeSnoc(findings, i);
      assert findings[..i + 1][..i] == findings[..i];
      if f.keyOf(findings[i]) !in f.triaged {
        open := open + [findings[i]];
      }
    }
    assert findings[..|findings|] == findings;
  }

  /** All findings of a record are triaged. */
  predicate AllTriaged(f: Facts, j: Json)
    requires ValidArtifact(j)
  {
    forall k :: 0 <= k < |j.fields[Findings].items| ==> f.keyOf(j.fields[Findings].items[k]) in f.triaged
  }

  /** Nothing to review, or everything of it reviewed and triaged. */
  predicate FullyReviewed(f: Facts)
  {
    || f.emptyDiff
    || (f.found.Some? && Certifies(f.found.value, f.diffHash, f.baseSha) && AllTriaged(f, f.found.value))
  }

  /**
   * The gate passes exactly an empty diff, or content a certifying record covers with every finding
   * triaged; it answers "open findings" exactly for such a record with one left; all else is no review.
   */
  method Decide(f: Facts) returns (a: Answer)
    ensures a.Pass? <==> FullyReviewed(f)
    ensures a.OpenFindings? <==> !f.emptyDiff && f.found.Some? && Certifies(f.found.value, f.diffHash, f.baseSha)
                                 && !AllTriaged(f, f.found.value)
    ensures a.InvalidArtifact? <==> !f.emptyDiff && f.found.Some? && !ValidArtifact(f.found.value)
  {
    if f.emptyDiff {
      return Pass;
    }
    if f.found.None? {
      return NoReview;
    }
    if !ValidArtifact(f.found.value) {
      return InvalidArtifact;
    }
    var r := f.found.value.fields;
    if !BoolAt(r, ParseOk) || !BoolAt(r, Degraded) || !BoolAt(r, DiffTruncated) || !BoolAt(r, Trustworthy) {
      return NoReview;
    }
    var recomputed := IsTrustworthy(r[ParseOk].b, r[Degraded].b, r[DiffTruncated].b);
    if !recomputed || r[Trustworthy].b != recomputed {
      return NoReview;
    }
    if Get(r, DiffHash) != Text(f.diffHash) {
      return NoReview;
    }
    if r[BaseSha] != Text(f.baseSha) {
      return NoReview;
    }
    var remaining := OpenOf(f, r[Findings].items);
    NothingOpen(f, r[Findings].items);
    a := if remaining != [] then OpenFindings else Pass;
  }

  // ------------------------------------------------------- recording the decision

  datatype Outcome = Skipped | Passed | Opened | Missing | Errored

  class EventLog {
    var events: seq<(Outcome, nat)>

    constructor ()
      ensures events == []
    {
      events := [];
    }

    /** A decision that cannot be recorded is no certification. */
    method Record(outcome: Outcome, code: nat, writable: bool) returns (final: nat)
      modifies this
      ensures events == if writable then old(events) + [(outcome, code)] else old(events)
      ensures final == if writable then code else 2
    {
      if !writable {
        return 2;
      }
      events := events + [(outcome, code)];
      final := code;
    }

    /**
     * Decide, record, return. Zero is answered only after it has been recorded as a pass or a skip,
     * one only after it has been recorded as open findings; anything unexpected is two.
     */
    method RunGate(skip: bool, f: Facts, exploded: bool, writable: bool) returns (code: nat)
      modifies this
      ensures code <= 2 && old(events) <= events
      ensures !writable ==> code == 2 && events == old(events)
      ensures writable ==> |events| == |old(events)| + 1 && events[|old(events)|].1 == code
      ensures code == 0 ==> writable && (skip || (!exploded && FullyReviewed(f)))
      ensures code == 1 ==> !skip && !exploded && f.found.Some? && Certifies(f.found.value, f.diffHash, f.baseSha)
                            && !AllTriaged(f, f.found.value)
      ensures code == 0 ==> events[|old(events)|].0 == if skip then Skipped else Passed
    {
      if skip {
        code := Record(Skipped, 0, writable);
        return;
      }
      if exploded {
        code := Record(Errored, 2, writable);
        return;
      }
      var a := Decide(f);
      var outcome := match a case Pass => Passed case OpenFindings => Opened case NoReview => Missing case InvalidArtifact => Errored;
      code := Record(outcome, Code(a), writable);
    }
  }

  // ------------------------------------------------------- imported records at the gate

  lemma NormalizedKeeps(r: Record, now: string, f: Field)
    requires StrictAxes(r) && f != Trustworthy && f != CompletedAt
    ensures Get(Normalized(r, now), f) == Get(r, f) && (f in Normalized(r, now) <==> f in r)
  {
  }

  lemma NormalizedStaysValid(r: Record, now: string)
    requires StrictAxes(r) && ValidArtifact(Object(r))
    ensures ValidArtifact(Object(Normalized(r, now)))
  {
    forall f | f in [Id, Branch, BaseSha, Findings, FindingsTotal]
      ensures Get(Normalized(r, now), f) == Get(r, f) && f in Normalized(r, now)
    {
      NormalizedKeeps(r, now, f);
    }
    var n := Normalized(r, now);
    assert Get(n, Findings) == Get(r, Findings) && Get(n, FindingsTotal) == Get(r, FindingsTotal);
    assert Get(n, Id) == Get(r, Id) && Get(n, Branch) == Get(r, Branch) && Get(n, BaseSha) == Get(r, BaseSha);
  }

  lemma NormalizedTrust(r: Record, now: string)
    requires StrictAxes(r) && TrustedRecord(r)
    ensures var n := Normalized(r, now);
            && BoolAt(n, ParseOk) && BoolAt(n, Degraded) && BoolAt(n, DiffTruncated)
            && IsTrustworthy(n[ParseOk].b, n[Degraded].b, n[DiffTruncated].b) && Get(n, Trustworthy) == Bool(true)
  {
    forall f | f in [ParseOk, Degraded, DiffTruncated]
      ensures Get(Normalized(r, now), f) == Get(r, f) && f in Normalized(r, now)
    {
      NormalizedKeeps(r, now, f);
    }
    var n := Normalized(r, now);
    assert Get(n, ParseOk) == Get(r, ParseOk) && Get(n, Degraded) == Get(r, Degraded);
    assert Get(n, DiffTruncated) == Get(r, DiffTruncated);
  }

  /**
   * A record an import stored as trustworthy, once selected by its diff hash, never trips the gate's
   * artifact or trust checks: the gate turns it away exactly when the base has moved.
   */
  lemma ImportedNeverTrips(archive: Archive, row: Record, now: string, diffHash: string, baseSha: string)
    requires HasId(row) && TrustedRecord(RecordOf(archive, row))
    requires Get(row, DiffHash) == Text(diffHash)
    ensures var rec := Normalized(RecordOf(archive, row), now);
            && ValidArtifact(Object(rec)) && Get(rec, Trustworthy) == Bool(true)
            && (Certifies(Object(rec), diffHash, baseSha) <==> Get(rec, BaseSha) == Text(baseSha))
  {
    TrustedExactly(archive, row);
    TrustedIsSound(archive, row);
    var plain := RecordOf(archive, row);
    NormalizedStaysValid(plain, now);
    NormalizedTrust(plain, now);
    NormalizedKeeps(plain, now, DiffHash);
  }

  /** And a record that import demoted is never handed to the gate: the store does not hold it as trustworthy. */
  lemma DemotedIsNotSelected(archive: Archive, row: Record, now: string)
    requires HasId(row) && !EarnsTrust(archive, row, row[Id].s)
    ensures Get(Normalized(RecordOf(archive, row), now), Trustworthy) == Bool(false)
  {
    TrustedExactly(archive, row);
  }
}
