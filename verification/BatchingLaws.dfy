/** What the splitter promises: minimal batches, and nothing lost or hidden. */
module BatchingLaws {
  import opened Seqs
  import opened Batching

  // ------------------------------------------------------------ optimality

  lemma {:induction false} GreedyAt(groups: seq<seq<Unit>>, budget: int, k: nat)
    requires IsGreedy(groups, budget) && k < |groups|
    ensures groups[k] != [] && Allowed(groups[k], budget)
    ensures k + 1 < |groups| ==> Tight(groups[k], groups[k + 1], budget)
  {
    var front := groups[..|groups| - 1];
    if k < |front| {
      GreedyAt(front, budget, k);
      assert front[k] == groups[k];
      if k + 1 < |front| {
        assert front[k + 1] == groups[k + 1];
      }
    }
  }

  lemma SizeWindow(units: seq<Unit>, a: nat, b: nat, c: nat, d: nat)
    requires a <= b <= c <= d <= |units|
    ensures Size(units[b..c]) <= Size(units[a..d])
  {
    assert units[a..d] == units[a..b] + (units[b..c] + units[c..d]);
    SizeAppend(units[a..b], units[b..c] + units[c..d]);
    SizeAppend(units[b..c], units[c..d]);
  }

  lemma StartIsCut<T>(parts: seq<seq<T>>, k: nat)
    requires k < |parts|
    ensures Start(parts, k) + |parts[k]| == Start(parts, k + 1) <= |Flatten(parts)|
    ensures Flatten(parts)[Start(parts, k)..Start(parts, k + 1)] == parts[k]
  {
    StartStep(parts, k);
  }

  lemma StartEnd<T>(parts: seq<seq<T>>)
    ensures Start(parts, |parts|) == |Flatten(parts)|
  {
    assert parts[..|parts|] == parts;
  }

  lemma {:induction false} StartMonotone<T>(parts: seq<seq<T>>, i: nat, j: nat)
    requires i <= j <= |parts|
    ensures Start(parts, i) <= Start(parts, j)
    decreases j
  {
    if i < j {
      StartStep(parts, j - 1);
      StartMonotone(parts, i, j - 1);
    }
  }

  /** A window holding a whole greedy group and the unit behind it is over budget. */
  lemma Overfull(units: seq<Unit>, o: nat, s: nat, e: nat, t: nat, budget: int)
    requires o <= s < e < t <= |units|
    requires Size(units[s..e]) + Blen(units[e].lines) > budget
    ensures !Allowed(units[o..t], budget)
  {
    assert units[s..e + 1] == units[s..e] + [units[e]];
    GrowGroup(units[s..e], units[e]);
    SizeWindow(units, o, s, e + 1, t);
  }

  /** After k groups no grouping has placed more units than the greedy one. */
  lemma {:induction false} GreedyStaysAhead(groups: seq<seq<Unit>>, other: seq<seq<Unit>>, units: seq<Unit>, budget: int, k: nat)
    requires IsGreedy(groups, budget) && Flatten(groups) == units
    requires IsGrouping(other, units, budget)
    requires k <= |other| && k <= |groups|
    ensures Start(other, k) <= Start(groups, k)
  {
    if k > 0 {
      GreedyStaysAhead(groups, other, units, budget, k - 1);
      StartIsCut(groups, k - 1);
      StartIsCut(other, k - 1);
      GreedyAt(groups, budget, k - 1);
      var o, s, e := Start(other, k - 1), Start(groups, k - 1), Start(groups, k);
      if e < Start(other, k) {
        assert k < |groups| by {
          StartEnd(groups);
        }
        StartIsCut(groups, k);
        GreedyAt(groups, budget, k);
        Overfull(units, o, s, e, Start(other, k), budget);
        assert false;
      }
    }
  }

  /** Greedy packing is optimal: no order-preserving grouping uses fewer batches. */
  lemma GreedyIsOptimal(groups: seq<seq<Unit>>, other: seq<seq<Unit>>, units: seq<Unit>, budget: int)
    requires IsGreedy(groups, budget) && Flatten(groups) == units
    requires IsGrouping(other, units, budget)
    ensures |groups| <= |other|
  {
    if |other| < |groups| {
      var k := |other|;
      GreedyStaysAhead(groups, other, units, budget, k);
      StartEnd(other);
      StartIsCut(groups, k);
      GreedyAt(groups, budget, k);
      assert false;
    }
  }

  lemma {:induction false} GreedyGroups(groups: seq<seq<Unit>>, budget: int)
    requires IsGreedy(groups, budget)
    ensures IsGrouping(groups, Flatten(groups), budget)
  {
    forall k | 0 <= k < |groups|
      ensures Allowed(groups[k], budget)
    {
      GreedyAt(groups, budget, k);
    }
  }

  /** The plan alone determines the batches. */
  lemma GreedyIsUnique(a: seq<seq<Unit>>, b: seq<seq<Unit>>, budget: int)
    requires IsGreedy(a, budget) && IsGreedy(b, budget) && Flatten(a) == Flatten(b)
    ensures a == b
  {
    GreedyGroups(a, budget);
    GreedyGroups(b, budget);
    GreedyIsOptimal(a, b, Flatten(a), budget);
    GreedyIsOptimal(b, a, Flatten(a), budget);
    forall k | 0 <= k < |a|
      ensures a[k] == b[k]
    {
      forall j | k <= j <= k + 1
        ensures Start(a, j) == Start(b, j)
      {
        GreedyStaysAhead(a, b, Flatten(a), budget, j);
        GreedyStaysAhead(b, a, Flatten(a), budget, j);
      }
      StartIsCut(a, k);
      StartIsCut(b, k);
    }
  }

  /** One unit behind the groups so far. */
  function Placed(groups: seq<seq<Unit>>, unit: Unit, budget: int): seq<seq<Unit>>
  {
    if groups == [] || Size(groups[|groups| - 1]) + Blen(unit.lines) > budget then groups + [[unit]]
    else groups[..|groups| - 1] + [groups[|groups| - 1] + [unit]]
  }

  lemma GroupsSnoc(units: seq<Unit>, unit: Unit, budget: int)
    ensures GroupsOf(units + [unit], budget) == Placed(GroupsOf(units, budget), unit, budget)
  {
    assert (units + [unit])[..|units|] == units;
  }

  lemma {:induction false} GroupsAreGreedy(units: seq<Unit>, budget: int)
    ensures IsGreedy(GroupsOf(units, budget), budget) && Flatten(GroupsOf(units, budget)) == units
  {
    if units != [] {
      var front, unit := units[..|units| - 1], units[|units| - 1];
      assert units == front + [unit];
      GroupsAreGreedy(front, budget);
      GroupsSnoc(front, unit, budget);
      PlacedGreedily(GroupsOf(front, budget), unit, budget);
    }
  }

  lemma PlacedGreedily(groups: seq<seq<Unit>>, unit: Unit, budget: int)
    requires IsGreedy(groups, budget)
    ensures IsGreedy(Placed(groups, unit, budget), budget)
    ensures Flatten(Placed(groups, unit, budget)) == Flatten(groups) + [unit]
  {
    if groups == [] || Size(groups[|groups| - 1]) + Blen(unit.lines) > budget {
      NewGroup(groups, unit, budget);
    } else {
      var k := |groups| - 1;
      assert groups == groups[..k] + [groups[k]];
      GrownGroup(groups[..k], groups[k], unit, budget);
    }
  }

  lemma GrownGroup(front: seq<seq<Unit>>, last: seq<Unit>, unit: Unit, budget: int)
    requires IsGreedy(front + [last], budget) && Size(last) + Blen(unit.lines) <= budget
    ensures IsGreedy(front + [last + [unit]], budget)
    ensures Flatten(front + [last + [unit]]) == Flatten(front + [last]) + [unit]
  {
    GrowGroup(last, unit);
    GreedySnoc(front, last, budget);
    if front != [] {
      TightStill(front[|front| - 1], last, unit, budget);
    }
    GreedySnoc(front, last + [unit], budget);
    LastGroupUnits(front, last, unit);
  }

  lemma GreedySnoc(front: seq<seq<Unit>>, group: seq<Unit>, budget: int)
    ensures IsGreedy(front + [group], budget)
            <==> IsGreedy(front, budget) && group != [] && Allowed(group, budget)
                 && (front != [] ==> Tight(front[|front| - 1], group, budget))
  {
    assert (front + [group])[..|front|] == front;
  }

  lemma NewGroup(front: seq<seq<Unit>>, unit: Unit, budget: int)
    requires IsGreedy(front, budget)
    requires front != [] ==> Size(front[|front| - 1]) + Blen(unit.lines) > budget
    ensures IsGreedy(front + [[unit]], budget) && Flatten(front + [[unit]]) == Flatten(front) + [unit]
  {
    FlattenSnoc(front, [unit]);
    GreedySnoc(front, [unit], budget);
  }

  lemma TightStill(front: seq<Unit>, last: seq<Unit>, unit: Unit, budget: int)
    requires Tight(front, last, budget)
    ensures Tight(front, last + [unit], budget)
  {
    assert (last + [unit])[0] == last[0];
  }

  lemma LastGroupUnits(front: seq<seq<Unit>>, last: seq<Unit>, unit: Unit)
    ensures Flatten(front + [last + [unit]]) == Flatten(front + [last]) + [unit]
  {
    FlattenSnoc(front, last);
    FlattenSnoc(front, last + [unit]);
    assert Flatten(front) + (last + [unit]) == (Flatten(front) + last) + [unit];
  }

  /** Whatever loop builds it, a greedy grouping of the units is the planned one. */
  lemma OnlyGreedy(groups: seq<seq<Unit>>, units: seq<Unit>, budget: int)
    requires IsGreedy(groups, budget) && Flatten(groups) == units
    ensures groups == GroupsOf(units, budget)
  {
    GroupsAreGreedy(units, budget);
    GreedyIsUnique(groups, GroupsOf(units, budget), budget);
  }

  /** No order-preserving grouping of the units into allowed groups has fewer members than there are batches. */
  lemma FewestBatches(units: seq<Unit>, budget: int, other: seq<seq<Unit>>)
    requires IsGrouping(other, units, budget)
    ensures |BatchesOf(GroupsOf(units, budget), budget)| <= |other|
  {
    GroupsAreGreedy(units, budget);
    GreedyIsOptimal(GroupsOf(units, budget), other, units, budget);
  }

  // ------------------------------------------------------- truncation flag

  /** A batch is flagged iff it exceeds the budget iff it is one oversized unit. */
  lemma TruncatedExactly(groups: seq<seq<Unit>>, budget: int, k: nat)
    requires IsGreedy(groups, budget) && k < |groups|
    ensures BatchesOf(groups, budget)[k].truncated <==> |BatchesOf(groups, budget)[k].data| > budget
    ensures BatchesOf(groups, budget)[k].truncated <==> |groups[k]| == 1 && Blen(groups[k][0].lines) > budget
  {
    GreedyAt(groups, budget, k);
    SizeIsBytes(groups[k]);
    if |groups[k]| == 1 {
      assert groups[k] == [groups[k][0]];
    }
  }

  // --------------------------------------------------------------- coverage

  /** Each unit without the header lines that repeat an earlier unit's. */
  function Kept(units: seq<Unit>, repeats: seq<nat>): (parts: seq<seq<Line>>)
    requires |units| == |repeats|
    requires forall k :: 0 <= k < |units| ==> repeats[k] <= |units[k].lines|
    ensures |parts| == |units|
  {
    seq(|units|, k requires 0 <= k < |units| => units[k].lines[repeats[k]..])
  }

  /** The repeat counts fit the units, and dropping the repeats leaves `lines`. */
  ghost predicate Erases(units: seq<Unit>, repeats: seq<nat>, lines: seq<Line>)
  {
    && |units| == |repeats|
    && (forall k :: 0 <= k < |units| ==> repeats[k] <= |units[k].lines|)
    && Flatten(Kept(units, repeats)) == lines
  }

  /** Every part but the first starts at a hunk or file marker, and none is empty. */
  ghost predicate StartsMarked(parts: seq<seq<Line>>, marked: bool)
  {
    forall k :: 0 <= k < |parts| ==>
      parts[k] != [] && (k > 0 || marked ==> Marks(HUNK, parts[k][0]) || Marks(DIFF_GIT, parts[k][0]))
  }

  lemma SplitSectionKept(section: seq<Line>, budget: int, fileOf: Label)
    requires Splits(section, budget)
    ensures HunksOf(section) != []
    ensures |UnitsOf(section, budget, fileOf)| == |RepeatsOf(section, budget)|
    ensures Kept(UnitsOf(section, budget, fileOf), RepeatsOf(section, budget))
         == [HeaderOf(section) + HunksOf(section)[0]] + HunksOf(section)[1..]
  {
    CutAtIsCut(HUNK, section[|HeaderOf(section)|..]);
  }

  lemma FlattenGlue<T>(h: seq<T>, parts: seq<seq<T>>)
    requires parts != []
    ensures Flatten([h + parts[0]] + parts[1..]) == h + Flatten(parts)
  {
    assert ([h + parts[0]] + parts[1..])[1..] == parts[1..];
  }

  lemma HeaderAndHunks(section: seq<Line>)
    ensures section == HeaderOf(section) + Flatten(HunksOf(section))
  {
    CutAtIsCut(HUNK, section[|HeaderOf(section)|..]);
    assert section == HeaderOf(section) + section[|HeaderOf(section)|..];
  }

  lemma SplitSectionErases(section: seq<Line>, budget: int, fileOf: Label)
    requires Splits(section, budget)
    ensures Erases(UnitsOf(section, budget, fileOf), RepeatsOf(section, budget), section)
  {
    SplitSectionKept(section, budget, fileOf);
    FlattenGlue(HeaderOf(section), HunksOf(section));
    HeaderAndHunks(section);
  }

  lemma SectionErases(section: seq<Line>, budget: int, fileOf: Label)
    ensures Erases(UnitsOf(section, budget, fileOf), RepeatsOf(section, budget), section)
  {
    if Splits(section, budget) {
      SplitSectionErases(section, budget, fileOf);
    } else {
      assert Kept(UnitsOf(section, budget, fileOf), RepeatsOf(section, budget)) == [section];
      assert Flatten([section]) == section + Flatten<Line>([]);
    }
  }

  lemma SectionStarts(section: seq<Line>, budget: int, fileOf: Label)
    requires section != []
    ensures |UnitsOf(section, budget, fileOf)| == |RepeatsOf(section, budget)|
    ensures StartsMarked(Kept(UnitsOf(section, budget, fileOf), RepeatsOf(section, budget)), Marks(DIFF_GIT, section[0]))
  {
    if Splits(section, budget) {
      var h, hunks := HeaderOf(section), HunksOf(section);
      SplitSectionKept(section, budget, fileOf);
      CutAtIsCut(HUNK, section[|h|..]);
      assert section[|h|..][0] == section[|h|];
      assert forall k :: 0 <= k < |hunks| ==> hunks[k] != [] && Marks(HUNK, hunks[k][0]);
      assert h != [] ==> h[0] == section[0];
    }
  }

  lemma {:induction false} PlanErases(sections: seq<seq<Line>>, budget: int, fileOf: Label)
    requires forall k :: 0 <= k < |sections| ==> sections[k] != []
    ensures Erases(AllUnits(sections, budget, fileOf), AllRepeats(sections, budget), Flatten(sections))
  {
    if sections != [] {
      PlanErases(sections[1..], budget, fileOf);
      SectionErases(sections[0], budget, fileOf);
      var u1, r1 := UnitsOf(sections[0], budget, fileOf), RepeatsOf(sections[0], budget);
      var u2, r2 := AllUnits(sections[1..], budget, fileOf), AllRepeats(sections[1..], budget);
      KeptAppend(u1, r1, u2, r2);
      FlattenAppend(Kept(u1, r1), Kept(u2, r2));
    }
  }

  lemma KeptAppend(u1: seq<Unit>, r1: seq<nat>, u2: seq<Unit>, r2: seq<nat>)
    requires |u1| == |r1| && |u2| == |r2|
    requires forall k :: 0 <= k < |u1| ==> r1[k] <= |u1[k].lines|
    requires forall k :: 0 <= k < |u2| ==> r2[k] <= |u2[k].lines|
    ensures forall k :: 0 <= k < |u1 + u2| ==> (r1 + r2)[k] <= |(u1 + u2)[k].lines|
    ensures Kept(u1 + u2, r1 + r2) == Kept(u1, r1) + Kept(u2, r2)
  {
  }

  lemma {:induction false} PlanStarts(sections: seq<seq<Line>>, budget: int, fileOf: Label)
    requires forall k :: 0 <= k < |sections| ==> sections[k] != []
    requires forall k :: 0 < k < |sections| ==> Marks(DIFF_GIT, sections[k][0])
    ensures Erases(AllUnits(sections, budget, fileOf), AllRepeats(sections, budget), Flatten(sections))
    ensures StartsMarked(Kept(AllUnits(sections, budget, fileOf), AllRepeats(sections, budget)),
                         sections != [] && Marks(DIFF_GIT, sections[0][0]))
  {
    PlanErases(sections, budget, fileOf);
    if sections != [] {
      PlanStarts(sections[1..], budget, fileOf);
      SectionErases(sections[0], budget, fileOf);
      SectionStarts(sections[0], budget, fileOf);
      KeptAppend(UnitsOf(sections[0], budget, fileOf), RepeatsOf(sections[0], budget),
                 AllUnits(sections[1..], budget, fileOf), AllRepeats(sections[1..], budget));
    }
  }

  /** Part k holds position x of the concatenation. */
  ghost predicate Covers<T>(parts: seq<seq<T>>, k: nat, x: nat)
  {
    k < |parts| && Start(parts, k) <= x < Start(parts, k + 1)
  }

  lemma {:induction false} CoversSome<T>(parts: seq<seq<T>>, x: nat) returns (k: nat)
    requires x < |Flatten(parts)|
    ensures Covers(parts, k, x)
  {
    k := 0;
    while x >= Start(parts, k + 1)
      invariant k < |parts| && Start(parts, k) <= x
      decreases |parts| - k
    {
      k := k + 1;
      StartEnd(parts);
    }
  }

  lemma CoversOne<T>(parts: seq<seq<T>>, k: nat, j: nat, x: nat)
    requires Covers(parts, k, x) && Covers(parts, j, x)
    ensures k == j
  {
    if k < j {
      StartMonotone(parts, k + 1, j);
    } else if j < k {
      StartMonotone(parts, j + 1, k);
    }
  }

  /** Lines i..j of the diff are inside unit u, and unit u is inside batch g. */
  ghost predicate LiesIn(groups: seq<seq<Unit>>, parts: seq<seq<Line>>, i: nat, j: nat, u: nat, g: nat)
  {
    Covers(parts, u, i) && j <= Start(parts, u + 1) && Covers(groups, g, u)
  }

  /** Lines i..j are one hunk: a hunk line and the unmarked lines behind it. */
  predicate IsHunk(lines: seq<Line>, i: nat, j: nat)
  {
    && i < j <= |lines|
    && Marks(HUNK, lines[i])
    && forall x :: i < x < j ==> !Marks(HUNK, lines[x]) && !Marks(DIFF_GIT, lines[x])
  }

  /** The plan of a diff, each unit without the header lines that repeat an earlier one's: the input, in order. */
  ghost function OwnLines(diff: seq<Byte>, budget: int, fileOf: Label): (parts: seq<seq<Line>>)
    ensures Flatten(parts) == SplitLines(diff) && |parts| == |Plan(diff, budget, fileOf)|
  {
    var sections := CutAt(DIFF_GIT, SplitLines(diff));
    CutAtIsCut(DIFF_GIT, SplitLines(diff));
    PlanErases(sections, Clamp(budget), fileOf);
    Kept(AllUnits(sections, Clamp(budget), fileOf), AllRepeats(sections, Clamp(budget)))
  }

  lemma OwnLinesStart(diff: seq<Byte>, budget: int, fileOf: Label)
    ensures StartsMarked(OwnLines(diff, budget, fileOf), false)
  {
    var sections := CutAt(DIFF_GIT, SplitLines(diff));
    CutAtIsCut(DIFF_GIT, SplitLines(diff));
    PlanStarts(sections, Clamp(budget), fileOf);
  }

  /** Every hunk, header line and body, lies in exactly one batch. */
  lemma HunkInOneBatch(diff: seq<Byte>, budget: int, fileOf: Label, groups: seq<seq<Unit>>, i: nat, j: nat)
    returns (u: nat, g: nat)
    requires Flatten(groups) == Plan(diff, budget, fileOf)
    requires IsHunk(SplitLines(diff), i, j)
    ensures LiesIn(groups, OwnLines(diff, budget, fileOf), i, j, u, g)
    ensures forall u', g' :: LiesIn(groups, OwnLines(diff, budget, fileOf), i, j, u', g') ==> u' == u && g' == g
  {
    var parts := OwnLines(diff, budget, fileOf);
    u := CoversSome(parts, i);
    OwnLinesStart(diff, budget, fileOf);
    HunkInsidePart(parts, SplitLines(diff), i, j, u);
    g := CoversSome(groups, u);
    forall u', g' | LiesIn(groups, parts, i, j, u', g')
      ensures u' == u && g' == g
    {
      CoversOne(parts, u, u', i);
      CoversOne(groups, g, g', u);
    }
  }

  lemma HunkInsidePart(parts: seq<seq<Line>>, lines: seq<Line>, i: nat, j: nat, u: nat)
    requires Flatten(parts) == lines && StartsMarked(parts, false)
    requires IsHunk(lines, i, j) && Covers(parts, u, i)
    ensures j <= Start(parts, u + 1)
  {
    var e := Start(parts, u + 1);
    StartEnd(parts);
    if u + 1 < |parts| {
      StartIsCut(parts, u + 1);
      assert lines[e] == parts[u + 1][0];
    }
  }

  lemma HunkShape(section: seq<Line>, k: nat)
    requires HeaderOf(section) != section && k < |HunksOf(section)|
    ensures HunksOf(section)[k] != [] && Marks(HUNK, HunksOf(section)[k][0])
    ensures forall i :: 0 < i < |HunksOf(section)[k]| ==> !Marks(HUNK, HunksOf(section)[k][i])
  {
    var rest := section[|HeaderOf(section)|..];
    CutAtIsCut(HUNK, rest);
    assert rest[0] == section[|HeaderOf(section)|];
  }

  /** A split section's units each carry that section's own header and one hunk. */
  lemma SplitUnitShape(section: seq<Line>, budget: int, fileOf: Label, k: nat)
    requires Splits(section, budget) && k < |UnitsOf(section, budget, fileOf)|
    ensures var u, h := UnitsOf(section, budget, fileOf)[k].lines, HeaderOf(section);
            h < u && Marks(HUNK, u[|h|]) && forall i :: 0 <= i < |u| && i != |h| ==> !Marks(HUNK, u[i])
  {
    HunkShape(section, k);
    var h, hunk := HeaderOf(section), HunksOf(section)[k];
    assert UnitsOf(section, budget, fileOf)[k].lines == h + hunk;
    forall i | 0 <= i < |h + hunk| && i != |h|
      ensures !Marks(HUNK, (h + hunk)[i])
    {
      if i > |h| {
        assert (h + hunk)[i] == hunk[i - |h|];
      }
    }
  }

  // ------------------------------------------------------------ small diffs

  function DataOf(batches: seq<Batch>): seq<Byte>
  {
    if batches == [] then [] else batches[0].data + DataOf(batches[1..])
  }

  /** The batches' bytes are the units' bytes in order. */
  lemma {:induction false} DataIsUnits(groups: seq<seq<Unit>>, budget: int)
    ensures DataOf(BatchesOf(groups, budget)) == Flatten(LinesOf(Flatten(groups)))
  {
    if groups != [] {
      DataIsUnits(groups[1..], budget);
      assert BatchesOf(groups, budget)[1..] == BatchesOf(groups[1..], budget);
      SizeAppend(groups[0], Flatten(groups[1..]));
      FlattenAppend(LinesOf(groups[0]), LinesOf(Flatten(groups[1..])));
    }
  }

  lemma {:induction false} WholeSections(sections: seq<seq<Line>>, budget: int, fileOf: Label)
    requires forall k :: 0 <= k < |sections| ==> Blen(sections[k]) <= budget
    ensures LinesOf(AllUnits(sections, budget, fileOf)) == Flatten(sections)
  {
    if sections != [] {
      WholeSections(sections[1..], budget, fileOf);
      var u := UnitsOf(sections[0], budget, fileOf);
      assert u == [Unit(sections[0], FilesOf(sections[0], fileOf))];
      assert (u + AllUnits(sections[1..], budget, fileOf))[1..] == AllUnits(sections[1..], budget, fileOf);
    }
  }

  /** When every section fits, the batches concatenate to the diff. */
  lemma FittingSectionsRoundTrip(diff: seq<Byte>, budget: int, fileOf: Label)
    requires forall k :: 0 <= k < |CutAt(DIFF_GIT, SplitLines(diff))| ==>
               Blen(CutAt(DIFF_GIT, SplitLines(diff))[k]) <= Clamp(budget)
    ensures DataOf(Planned(diff, budget, fileOf)) == diff
  {
    var groups := GroupsOf(Plan(diff, budget, fileOf), Clamp(budget));
    GroupsAreGreedy(Plan(diff, budget, fileOf), Clamp(budget));
    DataIsUnits(groups, Clamp(budget));
    WholeSections(CutAt(DIFF_GIT, SplitLines(diff)), Clamp(budget), fileOf);
    CutAtIsCut(DIFF_GIT, SplitLines(diff));
    SplitLinesRoundTrip(diff);
  }

  lemma {:induction false} SectionBound(sections: seq<seq<Line>>, k: nat)
    requires k < |sections|
    ensures Blen(sections[k]) <= Blen(Flatten(sections))
  {
    BlenAppend(sections[0], Flatten(sections[1..]));
    if k > 0 {
      SectionBound(sections[1..], k - 1);
    }
  }

  lemma SmallSections(diff: seq<Byte>)
    ensures forall k :: 0 <= k < |CutAt(DIFF_GIT, SplitLines(diff))| ==> Blen(CutAt(DIFF_GIT, SplitLines(diff))[k]) <= |diff|
  {
    var sections := CutAt(DIFF_GIT, SplitLines(diff));
    CutAtIsCut(DIFF_GIT, SplitLines(diff));
    SplitLinesRoundTrip(diff);
    forall k | 0 <= k < |sections|
      ensures Blen(sections[k]) <= |diff|
    {
      SectionBound(sections, k);
    }
  }

  lemma OneGroupSuffices(groups: seq<seq<Unit>>, units: seq<Unit>, budget: int)
    requires Flatten(groups) == units && IsGreedy(groups, budget)
    requires Size(units) <= budget
    ensures |groups| <= 1
  {
    assert Flatten([units]) == units + Flatten<Unit>([]);
    GreedyIsOptimal(groups, [units], units, budget);
  }

  /** A nonempty diff within budget is one unflagged batch holding it verbatim. */
  lemma SmallDiffIsOneBatch(diff: seq<Byte>, budget: int, fileOf: Label)
    requires 0 < |diff| <= budget
    ensures var batches := Planned(diff, budget, fileOf);
            |batches| == 1 && batches[0].data == diff && !batches[0].truncated
  {
    var groups := GroupsOf(Plan(diff, budget, fileOf), budget);
    GroupsAreGreedy(Plan(diff, budget, fileOf), budget);
    assert DataOf(BatchesOf(groups, budget)) == diff by {
      SmallSections(diff);
      FittingSectionsRoundTrip(diff, budget, fileOf);
    }
    assert |groups| <= 1 by {
      DataIsUnits(groups, budget);
      SizeIsBytes(Flatten(groups));
      OneGroupSuffices(groups, Flatten(groups), budget);
    }
    LoneBatch(groups, budget);
  }

  lemma LoneBatch(groups: seq<seq<Unit>>, budget: int)
    requires IsGreedy(groups, budget) && |groups| <= 1
    requires 0 < |DataOf(BatchesOf(groups, budget))| <= budget
    ensures |groups| == 1
    ensures BatchesOf(groups, budget)[0].data == DataOf(BatchesOf(groups, budget))
    ensures !BatchesOf(groups, budget)[0].truncated
  {
    var batches := BatchesOf(groups, budget);
    assert batches[1..] == [];
    TruncatedExactly(groups, budget, 0);
  }

  lemma SomeUnit(section: seq<Line>, budget: int, fileOf: Label)
    ensures UnitsOf(section, budget, fileOf) != []
  {
    if Splits(section, budget) {
      SplitSectionKept(section, budget, fileOf);
    }
  }

  /** There is no batch at all exactly when the diff is empty. */
  lemma NoBatchIffEmpty(diff: seq<Byte>, budget: int, fileOf: Label)
    ensures Planned(diff, budget, fileOf) == [] <==> diff == []
  {
    if diff != [] {
      var lines := SplitLines(diff);
      CutAtIsCut(DIFF_GIT, lines);
      SomeUnit(CutAt(DIFF_GIT, lines)[0], Clamp(budget), fileOf);
      assert Plan(diff, budget, fileOf) != [];
      GroupsAreGreedy(Plan(diff, budget, fileOf), Clamp(budget));
    }
  }
}
