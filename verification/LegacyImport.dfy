/** Importing a legacy archive: which reviews keep their trust, what is counted, and what a second run does. */
module LegacyImport {
  import opened Records
  import opened Seqs
  import opened Ticks

  // ------------------------------------------------------------------ the archive

  /** One line of a file of records. */
  datatype Line = Blank | Junk | Entry(record: Record)

  /** Index rows in order, and the artifact behind an id, if it can be read. */
  datatype Archive = Archive(index: seq<Line>, artifact: string -> Option<Json>)

  /** What the store does with a record: takes it, cannot use it, or is broken. */
  datatype Door = Takes | Unusable | Broken

  // ------------------------------------------------------------------------ trust

  /** What a trust axis means when the archive carries something that is not a boolean there. */
  function Unsafe(f: Field): bool { !f.ParseOk? }

  function Axis(r: Record, f: Field): bool
  {
    match Get(r, f) case Null => false case Bool(b) => b case _ => Unsafe(f)
  }

  predicate AxesTrust(r: Record)
  {
    IsTrustworthy(Axis(r, ParseOk), Axis(r, Degraded), Axis(r, DiffTruncated))
  }

  /** A recorded verdict can only deny. */
  predicate Denies(r: Record)
  {
    Get(r, Trustworthy) != Null && Get(r, Trustworthy) != Bool(true)
  }

  predicate Truthy(j: Json)
  {
    match j
    case Null => false
    case Bool(b) => b
    case Number(n) => n != 0
    case Text(s) => s != ""
    case List(items) => items != []
    case Object(fields) => fields != map[]
  }

  /** Trust withdrawn on the record, with what the archive claimed kept beside it. */
  function Demoted(r: Record, reason: string, force: bool): Record
  {
    var claimed := Object(map[ParseOk := Get(r, ParseOk), Degraded := Get(r, Degraded),
                              DiffTruncated := Get(r, DiffTruncated), Trustworthy := Get(r, Trustworthy)]);
    var out := r[LegacyTrust := claimed];
    if force || !Truthy(Get(out, FailureReason)) then out[FailureReason := Text(reason)] else out
  }

  /** Only a bare file name is looked up. */
  predicate Bare(id: string)
  {
    '/' !in id && '\\' !in id
  }

  /** The artifact that may speak for this row: valid, of the same id and diff, and hiding no finding the row counted. */
  predicate Speaks(archive: Archive, row: Record, id: string)
  {
    && Bare(id) && archive.artifact(id).Some?
    && var j := archive.artifact(id).value;
       && ValidArtifact(j) && j.fields[Id] == Text(id)
       && DiffHash in j.fields && j.fields[DiffHash] == Get(row, DiffHash)
       && Get(row, FindingsTotal).Number? && j.fields[FindingsTotal].n >= Get(row, FindingsTotal).n
  }

  datatype Fate = Trusted(reconciled: bool) | NoArtifact | ArchiveDenied | UntrustedAsIs

  /** The archive's own word, read off the row first and off the merged record after. */
  predicate EarnsTrust(archive: Archive, row: Record, id: string)
  {
    && !Denies(row) && AxesTrust(row) && Speaks(archive, row, id)
    && var merged := row + archive.artifact(id).value.fields;
       !Denies(merged) && AxesTrust(merged)
  }

  // -------------------------------------------------------------------- one index row

  predicate HasId(row: Record)
  {
    Get(row, Id).Text? && Get(row, Id).s != ""
  }

  function WithAxes(r: Record, id: string, parseOk: bool, degraded: bool, truncated: bool): Record
  {
    r[ParseOk := Bool(parseOk)][Degraded := Bool(degraded)][DiffTruncated := Bool(truncated)][Id := Text(id)]
     [SourceName := Text("legacy")]
  }

  /** The record that is stored for a row. */
  function RecordOf(archive: Archive, row: Record): (rec: Record)
    requires HasId(row)
    ensures StrictAxes(rec)
  {
    var id := row[Id].s;
    if Denies(row) then
      WithAxes(Demoted(row, ROW_DENIES, false), id, false, Axis(row, Degraded), Axis(row, DiffTruncated))
    else if !AxesTrust(row) then
      WithAxes(row, id, Axis(row, ParseOk), Axis(row, Degraded), Axis(row, DiffTruncated))
    else if !Speaks(archive, row, id) then
      WithAxes(Demoted(row, NO_ARTIFACT, true), id, false, Axis(row, Degraded), Axis(row, DiffTruncated))
    else
      var merged := row + archive.artifact(id).value.fields;
      if EarnsTrust(archive, row, id) then
        WithAxes(merged, id, Axis(merged, ParseOk), Axis(merged, Degraded), Axis(merged, DiffTruncated))
      else
        WithAxes(Demoted(merged, ARTIFACT_DENIES, false), id, false, Axis(merged, Degraded), Axis(merged, DiffTruncated))
  }

  function FateOf(archive: Archive, row: Record): Fate
    requires HasId(row)
  {
    var id := row[Id].s;
    if Denies(row) then ArchiveDenied
    else if !AxesTrust(row) then UntrustedAsIs
    else if !Speaks(archive, row, id) then NoArtifact
    else if EarnsTrust(archive, row, id) then
      Trusted(archive.artifact(id).value.fields[FindingsTotal] != Get(row, FindingsTotal))
    else ArchiveDenied
  }

  const ROW_DENIES := "the archive recorded this review as untrustworthy"
  const NO_ARTIFACT := "no usable artifact"
  const ARTIFACT_DENIES := "the artifact denies its own trust"

  /** The axes start from the summary and are read again off the merged record, whose artifact wins every field. */
  method ImportRow(archive: Archive, row: Record) returns (rec: Record, fate: Fate)
    requires HasId(row)
    ensures rec == RecordOf(archive, row) && fate == FateOf(archive, row)
  {
    var id := row[Id].s;
    var parseOk, degraded, truncated := Axis(row, ParseOk), Axis(row, Degraded), Axis(row, DiffTruncated);
    rec, fate := row, UntrustedAsIs;
    if Denies(row) {
      rec := Demoted(row, ROW_DENIES, false);
      parseOk, fate := false, ArchiveDenied;
    } else if IsTrustworthy(parseOk, degraded, truncated) {
      if Speaks(archive, row, id) {
        var artifact := archive.artifact(id).value.fields;
        fate := Trusted(artifact[FindingsTotal] != Get(row, FindingsTotal));
        rec := row + artifact;
        parseOk, degraded, truncated := Axis(rec, ParseOk), Axis(rec, Degraded), Axis(rec, DiffTruncated);
        if Denies(rec) || !IsTrustworthy(parseOk, degraded, truncated) {
          rec := Demoted(rec, ARTIFACT_DENIES, false);
          parseOk, fate := false, ArchiveDenied;
        }
      } else {
        rec := Demoted(row, NO_ARTIFACT, true);
        parseOk, fate := false, NoArtifact;
      }
    }
    rec := WithAxes(rec, id, parseOk, degraded, truncated);
  }

  predicate TrustedRecord(rec: Record)
    requires StrictAxes(rec)
  {
    IsTrustworthy(rec[ParseOk].b, rec[Degraded].b, rec[DiffTruncated].b)
  }

  /** A record is stored as trustworthy exactly when the summary, the artifact and both together are clean. */
  lemma TrustedExactly(archive: Archive, row: Record)
    requires HasId(row)
    ensures TrustedRecord(RecordOf(archive, row)) <==> EarnsTrust(archive, row, row[Id].s)
    ensures FateOf(archive, row).Trusted? <==> EarnsTrust(archive, row, row[Id].s)
  {
  }

  /** A record that kept its trust is the artifact's own word, and hides no finding the summary counted. */
  predicate Sound(archive: Archive, row: Record, rec: Record)
  {
    && ValidArtifact(Object(rec)) && !Denies(rec)
    && Get(rec, DiffHash) == Get(row, DiffHash)
    && Get(row, FindingsTotal).Number? && Get(rec, FindingsTotal).Number?
    && Get(rec, FindingsTotal).n >= Get(row, FindingsTotal).n
    && Get(row, Id).Text? && archive.artifact(Get(row, Id).s).Some?
    && archive.artifact(Get(row, Id).s).value.Object?
    && Get(rec, Findings) == Get(archive.artifact(Get(row, Id).s).value.fields, Findings)
  }

  /** The store's own fields, set over a valid artifact of that id, leave it valid. */
  lemma StaysValid(art: Record, row: Record, id: string, parseOk: bool, degraded: bool, truncated: bool)
    requires ValidArtifact(Object(art)) && art[Id] == Text(id)
    ensures ValidArtifact(Object(WithAxes(row + art, id, parseOk, degraded, truncated)))
  {
    var rec := WithAxes(row + art, id, parseOk, degraded, truncated);
    assert rec[Branch] == art[Branch] && rec[BaseSha] == art[BaseSha] && rec[Id] == Text(id);
    assert rec[Findings] == art[Findings] && rec[FindingsTotal] == art[FindingsTotal];
  }

  lemma TrustedIsSound(archive: Archive, row: Record)
    requires HasId(row) && EarnsTrust(archive, row, row[Id].s)
    ensures Sound(archive, row, RecordOf(archive, row))
  {
    var art := archive.artifact(row[Id].s).value.fields;
    var merged := row + art;
    StaysValid(art, row, row[Id].s, Axis(merged, ParseOk), Axis(merged, Degraded), Axis(merged, DiffTruncated));
  }

  // ------------------------------------------------------------------ whole archives

  /** Counters of an import, per archive line. */
  datatype Stats = Stats(reviews: nat, triage: nat, skipped: nat, noArtifact: nat, reconciled: nat, denied: nat,
                         unauditable: nat, failures: nat)

  const ZERO := Stats(0, 0, 0, 0, 0, 0, 0, 0)

  function Add(a: Stats, b: Stats): Stats
  {
    Stats(a.reviews + b.reviews, a.triage + b.triage, a.skipped + b.skipped, a.noArtifact + b.noArtifact,
          a.reconciled + b.reconciled, a.denied + b.denied, a.unauditable + b.unauditable, a.failures + b.failures)
  }

  /** What one index line adds to the counters. A demotion is counted before the store is asked. */
  function LineStats(archive: Archive, door: Record -> Door, line: Line): Stats
  {
    match line
    case Blank => ZERO
    case Junk => ZERO.(skipped := 1)
    case Entry(row) =>
      if !HasId(row) then ZERO.(skipped := 1)
      else
        var fate := FateOf(archive, row);
        var demoted := ZERO.(noArtifact := if fate.NoArtifact? then 1 else 0, denied := if fate.ArchiveDenied? then 1 else 0);
        match door(RecordOf(archive, row))
        case Takes => demoted.(reviews := 1, reconciled := if fate == Trusted(true) then 1 else 0)
        case Unusable => demoted.(skipped := 1)
        case Broken => demoted.(failures := 1)
  }

  function IndexStats(archive: Archive, door: Record -> Door, lines: seq<Line>): Stats
  {
    if lines == [] then ZERO
    else Add(IndexStats(archive, door, lines[..|lines| - 1]), LineStats(archive, door, lines[|lines| - 1]))
  }

  /** The id a line writes, if the store takes it. */
  function Written(archive: Archive, door: Record -> Door, line: Line): Option<string>
  {
    if line.Entry? && HasId(line.record) && door(RecordOf(archive, line.record)).Takes? then Some(line.record[Id].s) else None
  }

  /** What the index leaves in the table; a later line of the same id wins. Line k is stored at `clock(k)`. */
  function Imports(archive: Archive, door: Record -> Door, lines: seq<Line>, clock: nat -> string): map<string, Record>
  {
    if lines == [] then map[]
    else
      var line := lines[|lines| - 1];
      var front := Imports(archive, door, lines[..|lines| - 1], clock);
      var id := Written(archive, door, line);
      if id.Some? then front[id.value := Normalized(RecordOf(archive, line.record), clock(|lines| - 1))] else front
  }

  lemma Shorter<T>(lines: seq<T>, i: nat)
    requires i < |lines|
    ensures lines[..i + 1][..i] == lines[..i] && lines[..i + 1][i] == lines[i]
  {
  }

  lemma ImportsStep(archive: Archive, door: Record -> Door, lines: seq<Line>, i: nat, clock: nat -> string,
                    table: map<string, Record>, before: map<string, Record>, after: map<string, Record>)
    requires i < |lines| && before == table + Imports(archive, door, lines[..i], clock)
    requires var id := Written(archive, door, lines[i]);
             after == if id.Some? then before[id.value := Normalized(RecordOf(archive, lines[i].record), clock(i))] else before
    ensures after == table + Imports(archive, door, lines[..i + 1], clock)
  {
    Shorter(lines, i);
  }

  class Store {
    var reviews: map<string, Record>
    var events: seq<Decision>

    constructor (reviews: map<string, Record>, events: seq<Decision>)
      ensures this.reviews == reviews && this.events == events
    {
      this.reviews, this.events := reviews, events;
    }

    method ImportIndex(archive: Archive, door: Record -> Door, clock: nat -> string) returns (stats: Stats)
      modifies this`reviews
      ensures reviews == old(reviews) + Imports(archive, door, archive.index, clock)
      ensures stats == IndexStats(archive, door, archive.index)
    {
      stats := ZERO;
      var lines := archive.index;
      for i := 0 to |lines|
        invariant reviews == old(reviews) + Imports(archive, door, lines[..i], clock)
        invariant stats == IndexStats(archive, door, lines[..i])
      {
        Shorter(lines, i);
        ghost var was := reviews;
        var added := ImportLine(archive, door, lines[i], clock(i));
        ImportsStep(archive, door, lines, i, clock, old(reviews), was, reviews);
        stats := Add(stats, added);
      }
      assert lines[..|lines|] == lines;
    }

    method ImportLine(archive: Archive, door: Record -> Door, line: Line, now: string) returns (added: Stats)
      modifies this`reviews
      ensures added == LineStats(archive, door, line)
      ensures reviews == if Written(archive, door, line).Some?
                         then old(reviews)[Written(archive, door, line).value := Normalized(RecordOf(archive, line.record), now)]
                         else old(reviews)
    {
      match line {
        case Blank => added := ZERO;
        case Junk => added := ZERO.(skipped := 1);
        case Entry(row) =>
          if HasId(row) {
            added := ImportEntry(archive, door, row, now);
          } else {
            added := ZERO.(skipped := 1);
          }
      }
    }

    method ImportEntry(archive: Archive, door: Record -> Door, row: Record, now: string) returns (added: Stats)
      requires HasId(row)
      modifies this`reviews
      ensures added == LineStats(archive, door, Entry(row))
      ensures reviews == if door(RecordOf(archive, row)).Takes?
                         then old(reviews)[row[Id].s := Normalized(RecordOf(archive, row), now)] else old(reviews)
    {
      added := ZERO;
      var rec, fate := ImportRow(archive, row);
      if fate.ArchiveDenied? {
        added := added.(denied := 1);
      } else if fate.NoArtifact? {
        added := added.(noArtifact := 1);
      }
      match door(rec) {
        case Unusable => added := added.(skipped := 1);
        case Broken => added := added.(failures := 1);
        case Takes =>
          reviews := reviews[row[Id].s := Normalized(rec, now)];
          added := added.(reviews := 1);
          if fate == Trusted(true) {
            added := added.(reconciled := 1);
          }
      }
    }

    /** Every auditable dismissal is appended to the stream under its recorded key. */
    method ImportLedger(ledger: seq<LedgerLine>) returns (stats: Stats)
      modifies this`events
      ensures events == old(events) + Dismissals(ledger)
      ensures stats == LedgerStats(ledger)
    {
      stats := ZERO;
      for i := 0 to |ledger|
        invariant events == old(events) + Dismissals(ledger[..i]) && stats == LedgerStats(ledger[..i])
      {
        Shorter(ledger, i);
        var added := ImportDismissal(ledger[i]);
        stats := Add(stats, added);
      }
      assert ledger[..|ledger|] == ledger;
    }

    method ImportDismissal(line: LedgerLine) returns (added: Stats)
      modifies this`events
      ensures added == LedgerLineStats(line)
      ensures events == if Honoured(line) then old(events) + [Decision(line.key.value, Dismiss)] else old(events)
    {
      match line {
        case Gap => added := ZERO;
        case Garbage => added := ZERO.(skipped := 1);
        case Dismissal(key, auditable, door) =>
          if key.None? {
            return ZERO.(skipped := 1);
          }
          if !auditable {
            return ZERO.(unauditable := 1);
          }
          match door {
            case Unusable => added := ZERO.(skipped := 1);
            case Broken => added := ZERO.(failures := 1);
            case Takes =>
              events := events + [Decision(key.value, Dismiss)];
              added := ZERO.(triage := 1);
          }
      }
    }
  }

  // -------------------------------------------------------------------- the ledger

  /** A finding within one branch and base. */
  datatype Key = Key(branch: string, base: string, finding: string)

  datatype Verb = Dismiss | Reopen | Defer

  datatype Decision = Decision(key: Key, verb: Verb)

  datatype LedgerLine = Gap | Garbage | Dismissal(key: Option<Key>, auditable: bool, door: Door)

  predicate Honoured(line: LedgerLine)
  {
    line.Dismissal? && line.key.Some? && line.auditable && line.door.Takes?
  }

  function Dismissals(ledger: seq<LedgerLine>): seq<Decision>
  {
    if ledger == [] then []
    else
      var front := Dismissals(ledger[..|ledger| - 1]);
      var line := ledger[|ledger| - 1];
      if Honoured(line) then front + [Decision(line.key.value, Dismiss)] else front
  }

  function LedgerLineStats(line: LedgerLine): Stats
  {
    match line
    case Gap => ZERO
    case Garbage => ZERO.(skipped := 1)
    case Dismissal(key, auditable, door) =>
      if key.None? then ZERO.(skipped := 1)
      else if !auditable then ZERO.(unauditable := 1)
      else match door
           case Takes => ZERO.(triage := 1)
           case Unusable => ZERO.(skipped := 1)
           case Broken => ZERO.(failures := 1)
  }

  function LedgerStats(ledger: seq<LedgerLine>): Stats
  {
    if ledger == [] then ZERO else Add(LedgerStats(ledger[..|ledger| - 1]), LedgerLineStats(ledger[|ledger| - 1]))
  }

  // ------------------------------------------------------------------ conservation

  function Present(lines: seq<Line>): nat
  {
    if lines == [] then 0 else Present(lines[..|lines| - 1]) + if lines[|lines| - 1].Blank? then 0 else 1
  }

  function PresentLedger(ledger: seq<LedgerLine>): nat
  {
    if ledger == [] then 0 else PresentLedger(ledger[..|ledger| - 1]) + if ledger[|ledger| - 1].Gap? then 0 else 1
  }

  function Outcomes(s: Stats): nat
  {
    s.reviews + s.triage + s.skipped + s.unauditable + s.failures
  }

  /** Every non-blank line of both files is counted exactly once among the outcomes. */
  lemma {:induction false} EveryIndexLineOnce(archive: Archive, door: Record -> Door, lines: seq<Line>)
    ensures Outcomes(IndexStats(archive, door, lines)) == Present(lines)
    ensures IndexStats(archive, door, lines).reconciled <= IndexStats(archive, door, lines).reviews
  {
    if lines != [] {
      EveryIndexLineOnce(archive, door, lines[..|lines| - 1]);
    }
  }

  lemma {:induction false} EveryLedgerLineOnce(ledger: seq<LedgerLine>)
    ensures Outcomes(LedgerStats(ledger)) == PresentLedger(ledger)
  {
    if ledger != [] {
      EveryLedgerLineOnce(ledger[..|ledger| - 1]);
    }
  }

  lemma EveryLineOnce(archive: Archive, door: Record -> Door, ledger: seq<LedgerLine>)
    ensures Outcomes(Add(IndexStats(archive, door, archive.index), LedgerStats(ledger)))
            == Present(archive.index) + PresentLedger(ledger)
  {
    EveryIndexLineOnce(archive, door, archive.index);
    EveryLedgerLineOnce(ledger);
  }

  predicate IsDemotion(archive: Archive, line: Line)
  {
    line.Entry? && HasId(line.record)
    && (FateOf(archive, line.record).NoArtifact? || FateOf(archive, line.record).ArchiveDenied?)
  }

  /** Demoted rows that the store took. */
  function DemotedImports(archive: Archive, door: Record -> Door, lines: seq<Line>): nat
  {
    if lines == [] then 0
    else
      var line := lines[|lines| - 1];
      DemotedImports(archive, door, lines[..|lines| - 1])
      + if IsDemotion(archive, line) && Written(archive, door, line).Some? then 1 else 0
  }

  /**
   * The two demotion counters count demoted rows, which are imported reviews exactly when the
   * store takes every one of them.
   */
  lemma {:induction false} DemotionsAreReviewsExactly(archive: Archive, door: Record -> Door, lines: seq<Line>)
    ensures var s := IndexStats(archive, door, lines);
            && DemotedImports(archive, door, lines) <= s.noArtifact + s.denied
            && DemotedImports(archive, door, lines) <= s.reviews
            && (s.noArtifact + s.denied == DemotedImports(archive, door, lines) <==> DemotionsTaken(archive, door, lines))
  {
    if lines != [] {
      var k := |lines| - 1;
      DemotionsAreReviewsExactly(archive, door, lines[..k]);
      OneMoreTaken(archive, door, lines[..k], lines[k]);
      assert lines == lines[..k] + [lines[k]];
      DemotionCounted(archive, door, lines[k]);
    }
  }

  /** Every demoted row was taken by the store. */
  ghost predicate DemotionsTaken(archive: Archive, door: Record -> Door, lines: seq<Line>)
  {
    forall k :: 0 <= k < |lines| && IsDemotion(archive, lines[k]) ==> Written(archive, door, lines[k]).Some?
  }

  lemma OneMoreTaken(archive: Archive, door: Record -> Door, lines: seq<Line>, line: Line)
    ensures DemotionsTaken(archive, door, lines + [line])
            <==> DemotionsTaken(archive, door, lines) && (IsDemotion(archive, line) ==> Written(archive, door, line).Some?)
  {
    assert forall k :: 0 <= k < |lines| ==> (lines + [line])[k] == lines[k];
    assert (lines + [line])[|lines|] == line;
  }

  lemma DemotionCounted(archive: Archive, door: Record -> Door, line: Line)
    ensures var s := LineStats(archive, door, line);
            && s.noArtifact + s.denied == (if IsDemotion(archive, line) then 1 else 0)
            && s.reviews == if Written(archive, door, line).Some? then 1 else 0
  {
  }

  /** A demoted row that a broken store refuses is counted as demoted, and as no review. */
  lemma DemotedButNotImported(archive: Archive, door: Record -> Door, row: Record)
    requires HasId(row) && Denies(row) && door(RecordOf(archive, row)).Broken?
    ensures LineStats(archive, door, Entry(row)) == ZERO.(denied := 1, failures := 1)
    ensures Written(archive, door, Entry(row)).None? && IsDemotion(archive, Entry(row))
  {
    assert FateOf(archive, row) == ArchiveDenied;
  }

  // --------------------------------------------------------------------- again

  /** The last line whose record the store took for an id. */
  function LastLine(archive: Archive, door: Record -> Door, lines: seq<Line>, id: string): (k: Option<nat>)
    ensures k.Some? ==> k.value < |lines| && Written(archive, door, lines[k.value]) == Some(id)
  {
    if lines == [] then None
    else if Written(archive, door, lines[|lines| - 1]) == Some(id) then Some(|lines| - 1)
    else LastLine(archive, door, lines[..|lines| - 1], id)
  }

  lemma {:induction false} ImportsAre(archive: Archive, door: Record -> Door, lines: seq<Line>, clock: nat -> string, id: string)
    ensures var last := LastLine(archive, door, lines, id);
            && (id in Imports(archive, door, lines, clock) <==> last.Some?)
            && (last.Some? ==>
                  Imports(archive, door, lines, clock)[id]
                  == Normalized(RecordOf(archive, lines[last.value].record), clock(last.value)))
  {
    if lines != [] {
      ImportsAre(archive, door, lines[..|lines| - 1], clock, id);
    }
  }

  /** Line k is the last of its id, and its record brings no completion time of its own though it is over. */
  predicate StampedByStore(archive: Archive, door: Record -> Door, lines: seq<Line>, k: nat)
    requires k < |lines|
  {
    var id := Written(archive, door, lines[k]);
    id.Some? && LastLine(archive, door, lines, id.value) == Some(k) && NeedsStamp(RecordOf(archive, lines[k].record))
  }

  /** Whatever the store has to stamp itself, it stamps at the same second both times. */
  ghost predicate StampsAgree(archive: Archive, door: Record -> Door, lines: seq<Line>, clock: nat -> string, later: nat -> string)
  {
    forall k :: 0 <= k < |lines| && StampedByStore(archive, door, lines, k) ==> clock(k) == later(k)
  }

  lemma StampShows(r: Record, now: string, later: string)
    requires StrictAxes(r)
    ensures Normalized(r, now) == Normalized(r, later) <==> now == later || !NeedsStamp(r)
  {
    if NeedsStamp(r) {
      assert Normalized(r, now)[CompletedAt] == Text(now) && Normalized(r, later)[CompletedAt] == Text(later);
    }
  }

  lemma RowAgain(archive: Archive, door: Record -> Door, lines: seq<Line>, clock: nat -> string, later: nat -> string, id: string)
    ensures var a, b := Imports(archive, door, lines, clock), Imports(archive, door, lines, later);
            var last := LastLine(archive, door, lines, id);
            && (id in a <==> last.Some?) && (id in b <==> last.Some?)
            && (last.Some? ==>
                  (a[id] == b[id]
                   <==> StampedByStore(archive, door, lines, last.value) ==> clock(last.value) == later(last.value)))
  {
    ImportsAre(archive, door, lines, clock, id);
    ImportsAre(archive, door, lines, later, id);
    var last := LastLine(archive, door, lines, id);
    if last.Some? {
      StampShows(RecordOf(archive, lines[last.value].record), clock(last.value), later(last.value));
    }
  }

  /**
   * Importing an archive a second time leaves the review table as it was exactly when every record
   * that the store has to stamp, because it brings no completion time of its own, falls in the
   * same second both times. Each line has its own second.
   */
  lemma SecondImportExactly(archive: Archive, door: Record -> Door, table: map<string, Record>,
                            clock: nat -> string, later: nat -> string)
    ensures var lines := archive.index;
            var once := table + Imports(archive, door, lines, clock);
            once + Imports(archive, door, lines, later) == once <==> StampsAgree(archive, door, lines, clock, later)
  {
    var lines := archive.index;
    var a, b := Imports(archive, door, lines, clock), Imports(archive, door, lines, later);
    var once := table + a;
    if StampsAgree(archive, door, lines, clock, later) {
      forall id | id in b
        ensures id in once && once[id] == b[id]
      {
        RowAgain(archive, door, lines, clock, later, id);
      }
      assert once + b == once;
    } else {
      var k :| 0 <= k < |lines| && StampedByStore(archive, door, lines, k) && clock(k) != later(k);
      var id := Written(archive, door, lines[k]).value;
      RowAgain(archive, door, lines, clock, later, id);
      assert (once + b)[id] == b[id] && once[id] == a[id];
    }
  }

  /** The last decision on a finding. */
  function Effective(events: seq<Decision>, key: Key): Option<Verb>
  {
    if events == [] then None
    else if events[|events| - 1].key == key then Some(events[|events| - 1].verb)
    else Effective(events[..|events| - 1], key)
  }

  /** What the gate counts as triaged. */
  predicate Cleared(events: seq<Decision>, key: Key)
  {
    Effective(events, key) == Some(Dismiss) || Effective(events, key) == Some(Defer)
  }

  ghost predicate Dismisses(ledger: seq<LedgerLine>, key: Key)
  {
    exists k :: 0 <= k < |ledger| && Honoured(ledger[k]) && ledger[k].key == Some(key)
  }

  lemma {:induction false} EffectiveAfterImport(events: seq<Decision>, ledger: seq<LedgerLine>, key: Key)
    ensures Effective(events + Dismissals(ledger), key)
            == if Dismisses(ledger, key) then Some(Dismiss) else Effective(events, key)
  {
    if ledger == [] {
      assert events + Dismissals(ledger) == events;
    } else {
      var k := |ledger| - 1;
      EffectiveAfterImport(events, ledger[..k], key);
      OneMoreDismissal(ledger[..k], ledger[k], key);
      assert ledger == ledger[..k] + [ledger[k]];
      if Honoured(ledger[k]) {
        var d := Decision(ledger[k].key.value, Dismiss);
        assert events + Dismissals(ledger) == (events + Dismissals(ledger[..k])) + [d];
        EffectiveSnoc(events + Dismissals(ledger[..k]), d, key);
      }
    }
  }

  lemma EffectiveSnoc(events: seq<Decision>, d: Decision, key: Key)
    ensures Effective(events + [d], key) == if d.key == key then Some(d.verb) else Effective(events, key)
  {
    assert (events + [d])[..|events|] == events;
  }

  lemma OneMoreDismissal(ledger: seq<LedgerLine>, line: LedgerLine, key: Key)
    ensures Dismisses(ledger + [line], key) <==> Dismisses(ledger, key) || (Honoured(line) && line.key == Some(key))
  {
    assert forall k :: 0 <= k < |ledger| ==> (ledger + [line])[k] == ledger[k];
    assert (ledger + [line])[|ledger|] == line;
  }

  /**
   * What the gate sees of a finding is the same after importing the ledger again exactly when no
   * dismissal of the archive meets a finding that is open by now: a reopening in between is undone.
   */
  lemma ReimportKeepsDecisionExactly(events: seq<Decision>, ledger: seq<LedgerLine>, key: Key)
    ensures Cleared(events + Dismissals(ledger), key) == Cleared(events, key)
            <==> !(Dismisses(ledger, key) && !Cleared(events, key))
  {
    EffectiveAfterImport(events, ledger, key);
  }

  /** A person reopens an imported dismissal; importing again dismisses it once more. */
  lemma ReimportUndoesReopen(key: Key)
    ensures var ledger := [Dismissal(Some(key), true, Takes)];
            var human := Dismissals(ledger) + [Decision(key, Reopen)];
            !Cleared(human, key) && Cleared(human + Dismissals(ledger), key)
  {
    var ledger := [Dismissal(Some(key), true, Takes)];
    var human := Dismissals(ledger) + [Decision(key, Reopen)];
    assert Honoured(ledger[0]) && Dismisses(ledger, key);
    EffectiveAfterImport(human, ledger, key);
  }

  /** With nothing decided in between, a second import of the ledger changes nothing the gate sees. */
  lemma SecondLedgerImportIsQuiet(events: seq<Decision>, ledger: seq<LedgerLine>, key: Key)
    ensures var once := events + Dismissals(ledger);
            Effective(once + Dismissals(ledger), key) == Effective(once, key)
  {
    EffectiveAfterImport(events, ledger, key);
    EffectiveAfterImport(events + Dismissals(ledger), ledger, key);
  }
}
