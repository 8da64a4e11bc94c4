/** Deterministic splitting of an over-budget diff into review batches. */
module Batching {
  import opened Seqs

  newtype Byte = x: int | 0 <= x < 256

  type Line = seq<Byte>

  const LF: Byte := 10
  const CR: Byte := 13

  /** `diff --git ` */
  const DIFF_GIT: Line := [100, 105, 102, 102, 32, 45, 45, 103, 105, 116, 32]

  /** `@@` */
  const HUNK: Line := [64, 64]

  datatype Unit = Unit(lines: seq<Line>, files: seq<string>)

  datatype Batch = Batch(data: seq<Byte>, files: seq<string>, truncated: bool)

  /** Best-effort file label of a section; the empty string when it has no header. */
  type Label = seq<Line> -> string

  // ---------------------------------------------------------------- lines

  function LineEnd(d: seq<Byte>): (n: nat)
    requires d != []
    ensures 1 <= n <= |d|
  {
    if d[0] == LF then 1
    else if d[0] == CR then (if |d| > 1 && d[1] == LF then 2 else 1)
    else if |d| == 1 then 1
    else 1 + LineEnd(d[1..])
  }

  /** `bytes.splitlines(keepends=True)`. */
  function SplitLines(d: seq<Byte>): (lines: seq<Line>)
  {
    if d == [] then [] else [d[..LineEnd(d)]] + SplitLines(d[LineEnd(d)..])
  }

  lemma SplitLinesStep(d: seq<Byte>)
    requires d != []
    ensures SplitLines(d)[0] == d[..LineEnd(d)] != [] && SplitLines(d)[1..] == SplitLines(d[LineEnd(d)..])
  {
  }

  lemma {:induction false} SplitLinesRoundTrip(d: seq<Byte>)
    ensures Flatten(SplitLines(d)) == d
    ensures forall k :: 0 <= k < |SplitLines(d)| ==> SplitLines(d)[k] != []
  {
    if d != [] {
      SplitLinesStep(d);
      SplitLinesRoundTrip(d[LineEnd(d)..]);
      assert forall k :: 0 < k < |SplitLines(d)| ==> SplitLines(d)[k] == SplitLines(d)[1..][k - 1];
    }
  }

  function Blen(lines: seq<Line>): (n: nat)
    ensures n == |Flatten(lines)|
  {
    if lines == [] then 0 else |lines[0]| + Blen(lines[1..])
  }

  lemma BlenAppend(a: seq<Line>, b: seq<Line>)
    ensures Blen(a + b) == Blen(a) + Blen(b)
  {
    FlattenAppend(a, b);
  }

  // ------------------------------------------------- cutting at a marker

  predicate Marks(marker: Line, ln: Line)
  {
    marker <= ln
  }

  /** `parts` is `lines` cut exactly in front of every marked line. */
  ghost predicate IsCut(marker: Line, lines: seq<Line>, parts: seq<seq<Line>>)
  {
    && Flatten(parts) == lines
    && (forall k :: 0 <= k < |parts| ==> parts[k] != [])
    && (forall k :: 0 < k < |parts| ==> Marks(marker, parts[k][0]))
    && (forall k, i :: 0 <= k < |parts| && 0 < i < |parts[k]| ==> !Marks(marker, parts[k][i]))
  }

  /** How many lines the first part takes. */
  function FirstPart(marker: Line, lines: seq<Line>): (n: nat)
    requires lines != []
    ensures 1 <= n <= |lines|
    ensures forall i :: 0 < i < n ==> !Marks(marker, lines[i])
    ensures n < |lines| ==> Marks(marker, lines[n])
  {
    if |lines| == 1 || Marks(marker, lines[1]) then 1 else 1 + FirstPart(marker, lines[1..])
  }

  function CutAt(marker: Line, lines: seq<Line>): (parts: seq<seq<Line>>)
  {
    if lines == [] then []
    else var n := FirstPart(marker, lines); [lines[..n]] + CutAt(marker, lines[n..])
  }

  lemma CutMore(marker: Line, first: seq<Line>, rest: seq<Line>, parts: seq<seq<Line>>)
    requires first != [] && (forall i :: 0 < i < |first| ==> !Marks(marker, first[i]))
    requires IsCut(marker, rest, parts) && (parts != [] ==> Marks(marker, parts[0][0]))
    ensures IsCut(marker, first + rest, [first] + parts)
  {
    var all := [first] + parts;
    assert all[1..] == parts;
    assert forall k :: 0 < k < |all| ==> all[k] == parts[k - 1];
  }

  lemma {:induction false} CutAtIsCut(marker: Line, lines: seq<Line>)
    ensures IsCut(marker, lines, CutAt(marker, lines))
    ensures lines != [] ==> CutAt(marker, lines) != [] && CutAt(marker, lines)[0][0] == lines[0]
  {
    if lines != [] {
      var n := FirstPart(marker, lines);
      CutAtIsCut(marker, lines[n..]);
      CutMore(marker, lines[..n], lines[n..], CutAt(marker, lines[n..]));
      assert lines[..n] + lines[n..] == lines;
    }
  }

  /** The cut is determined by the lines and the marker alone. */
  lemma {:induction false} CutUnique(marker: Line, lines: seq<Line>, parts: seq<seq<Line>>)
    requires IsCut(marker, lines, parts)
    ensures parts == CutAt(marker, lines)
  {
    if parts == [] {
    } else {
      var n := FirstPart(marker, lines);
      var m := |parts[0]|;
      assert lines == parts[0] + Flatten(parts[1..]);
      assert |parts| > 1 ==> Flatten(parts[1..])[0] == parts[1][0];
      assert m < |lines| ==> Marks(marker, lines[m]);
      assert forall i :: 0 <= i < m ==> lines[i] == parts[0][i];
      assert forall i :: 0 < i < m ==> !Marks(marker, lines[i]);
      assert n == m;
      assert lines[n..] == Flatten(parts[1..]);
      CutUnique(marker, lines[n..], parts[1..]);
    }
  }

  /** `parts` and, behind them, the part still being read. */
  ghost predicate Cutting(marker: Line, done: seq<Line>, parts: seq<seq<Line>>, cur: seq<Line>)
  {
    if cur == [] then done == [] && parts == [] else IsCut(marker, done, parts + [cur])
  }

  lemma CutBefore(marker: Line, done: seq<Line>, parts: seq<seq<Line>>, cur: seq<Line>, ln: Line)
    requires Cutting(marker, done, parts, cur) && cur != [] && Marks(marker, ln)
    ensures Cutting(marker, done + [ln], parts + [cur], [ln])
  {
    FlattenSnoc(parts + [cur], [ln]);
  }

  lemma CutOn(marker: Line, done: seq<Line>, parts: seq<seq<Line>>, cur: seq<Line>, ln: Line)
    requires Cutting(marker, done, parts, cur) && (cur == [] || !Marks(marker, ln))
    ensures Cutting(marker, done + [ln], parts, cur + [ln])
  {
    FlattenSnoc(parts, cur + [ln]);
    if cur != [] {
      FlattenSnoc(parts, cur);
      assert Flatten(parts) + (cur + [ln]) == (Flatten(parts) + cur) + [ln];
      assert (parts + [cur])[|parts|] == cur;
      assert forall k :: 0 <= k < |parts| ==> (parts + [cur])[k] == parts[k];
    }
  }

  /** Cut the lines into per-file sections; a preamble is its own section. */
  method Sections(lines: seq<Line>) returns (sections: seq<seq<Line>>)
    ensures IsCut(DIFF_GIT, lines, sections)
    ensures sections == CutAt(DIFF_GIT, lines)
  {
    sections := [];
    var cur: seq<Line> := [];
    for i := 0 to |lines|
      invariant Cutting(DIFF_GIT, lines[..i], sections, cur)
    {
      var ln := lines[i];
      TakeSnoc(lines, i);
      if Marks(DIFF_GIT, ln) && cur != [] {
        CutBefore(DIFF_GIT, lines[..i], sections, cur, ln);
        sections := sections + [cur];
        cur := [ln];
      } else {
        CutOn(DIFF_GIT, lines[..i], sections, cur, ln);
        cur := cur + [ln];
      }
    }
    assert lines[..|lines|] == lines;
    if cur != [] {
      sections := sections + [cur];
    }
    CutUnique(DIFF_GIT, lines, sections);
  }

  // ---------------------------------------------------------------- units

  /** The lines in front of the first hunk. */
  function HeaderOf(section: seq<Line>): (h: seq<Line>)
    ensures h <= section
    ensures forall i :: 0 <= i < |h| ==> !Marks(HUNK, h[i])
    ensures |h| < |section| ==> Marks(HUNK, section[|h|])
  {
    if section == [] || Marks(HUNK, section[0]) then []
    else [section[0]] + HeaderOf(section[1..])
  }

  function HunksOf(section: seq<Line>): seq<seq<Line>>
  {
    CutAt(HUNK, section[|HeaderOf(section)|..])
  }

  function FilesOf(section: seq<Line>, fileOf: Label): seq<string>
  {
    if fileOf(section) == "" then [] else [fileOf(section)]
  }

  /** Every hunk behind its own copy of the header. */
  function WithHeader(header: seq<Line>, hunks: seq<seq<Line>>, files: seq<string>): (units: seq<Unit>)
  {
    seq(|hunks|, k requires 0 <= k < |hunks| => Unit(header + hunks[k], files))
  }

  predicate Splits(section: seq<Line>, budget: int)
  {
    Blen(section) > budget && HeaderOf(section) != section
  }

  function UnitsOf(section: seq<Line>, budget: int, fileOf: Label): (units: seq<Unit>)
  {
    if Splits(section, budget) then
      WithHeader(HeaderOf(section), HunksOf(section), FilesOf(section, fileOf))
    else [Unit(section, FilesOf(section, fileOf))]
  }

  /** How many leading lines of each unit repeat a header already emitted. */
  function RepeatsOf(section: seq<Line>, budget: int): (r: seq<nat>)
  {
    if Splits(section, budget) then
      seq(|HunksOf(section)|, k => if k == 0 then 0 else |HeaderOf(section)|)
    else [0]
  }

  lemma HeaderUnique(section: seq<Line>, h: seq<Line>)
    requires h <= section
    requires forall i :: 0 <= i < |h| ==> !Marks(HUNK, h[i])
    requires |h| < |section| ==> Marks(HUNK, section[|h|])
    ensures h == HeaderOf(section)
  {
    var g := HeaderOf(section);
    assert forall i :: 0 <= i < |g| ==> g[i] == section[i];
    assert forall i :: 0 <= i < |h| ==> h[i] == section[i];
    assert |h| == |g|;
  }

  /** The header and hunk lists `_units` accumulates line by line. */
  method CutHunks(section: seq<Line>) returns (header: seq<Line>, hunks: seq<seq<Line>>)
    ensures header == HeaderOf(section) && hunks == HunksOf(section)
    ensures hunks == [] <==> header == section
  {
    header, hunks := [], [];
    var cur: seq<Line> := [];
    for i := 0 to |section|
      invariant |header| <= i && header == section[..|header|] && (cur == [] <==> |header| == i)
      invariant forall j :: 0 <= j < |header| ==> !Marks(HUNK, header[j])
      invariant |header| < i ==> Marks(HUNK, section[|header|])
      invariant Cutting(HUNK, section[|header|..i], hunks, cur)
    {
      var ln := section[i];
      Between(section, |header|, i);
      if Marks(HUNK, ln) {
        if cur != [] {
          CutBefore(HUNK, section[|header|..i], hunks, cur, ln);
          hunks := hunks + [cur];
        } else {
          CutOn(HUNK, [], [], [], ln);
        }
        cur := [ln];
      } else if cur == [] {
        TakeSnoc(section, i);
        header := header + [ln];
      } else {
        CutOn(HUNK, section[|header|..i], hunks, cur, ln);
        cur := cur + [ln];
      }
    }
    if cur != [] {
      hunks := hunks + [cur];
    }
    CutHunksDone(section, header, hunks);
  }

  lemma Between(section: seq<Line>, from: nat, i: nat)
    requires from <= i < |section|
    ensures section[from..i + 1] == section[from..i] + [section[i]]
  {
  }

  lemma CutHunksDone(section: seq<Line>, header: seq<Line>, hunks: seq<seq<Line>>)
    requires header <= section && IsCut(HUNK, section[|header|..], hunks)
    requires |header| < |section| ==> Marks(HUNK, section[|header|])
    requires forall j :: 0 <= j < |header| ==> !Marks(HUNK, header[j])
    ensures header == HeaderOf(section) && hunks == HunksOf(section)
    ensures hunks == [] <==> header == section
  {
    HeaderUnique(section, header);
    CutUnique(HUNK, section[|header|..], hunks);
  }

  method Units(section: seq<Line>, budget: int, fileOf: Label) returns (units: seq<Unit>)
    ensures units == UnitsOf(section, budget, fileOf)
  {
    var name := fileOf(section);
    var files := if name != "" then [name] else [];
    if Blen(section) <= budget {
      return [Unit(section, files)];
    }
    var header, hunks := CutHunks(section);
    if hunks == [] {
      return [Unit(section, files)];
    }
    units := WithHeader(header, hunks, files);
  }

  function AllUnits(sections: seq<seq<Line>>, budget: int, fileOf: Label): (units: seq<Unit>)
  {
    if sections == [] then [] else UnitsOf(sections[0], budget, fileOf) + AllUnits(sections[1..], budget, fileOf)
  }

  function AllRepeats(sections: seq<seq<Line>>, budget: int): (r: seq<nat>)
  {
    if sections == [] then [] else RepeatsOf(sections[0], budget) + AllRepeats(sections[1..], budget)
  }

  lemma {:induction false} AllUnitsAppend(a: seq<seq<Line>>, s: seq<Line>, budget: int, fileOf: Label)
    ensures AllUnits(a + [s], budget, fileOf) == AllUnits(a, budget, fileOf) + UnitsOf(s, budget, fileOf)
  {
    if a == [] {
      assert AllUnits([s], budget, fileOf) == UnitsOf(s, budget, fileOf) + AllUnits([], budget, fileOf);
    } else {
      assert (a + [s])[1..] == a[1..] + [s];
      AllUnitsAppend(a[1..], s, budget, fileOf);
    }
  }

  // -------------------------------------------------------------- packing

  function LinesOf(group: seq<Unit>): (lines: seq<Line>)
  {
    if group == [] then [] else group[0].lines + LinesOf(group[1..])
  }

  /** Byte size of a group. */
  function Size(group: seq<Unit>): (n: nat)
  {
    if group == [] then 0 else Blen(group[0].lines) + Size(group[1..])
  }

  lemma {:induction false} SizeAppend(a: seq<Unit>, b: seq<Unit>)
    ensures Size(a + b) == Size(a) + Size(b)
    ensures LinesOf(a + b) == LinesOf(a) + LinesOf(b)
  {
    if a == [] {
      assert a + b == b;
    } else {
      assert (a + b)[1..] == a[1..] + b;
      SizeAppend(a[1..], b);
    }
  }

  lemma {:induction false} SizeIsBytes(group: seq<Unit>)
    ensures Size(group) == |Flatten(LinesOf(group))|
  {
    if group != [] {
      SizeIsBytes(group[1..]);
      FlattenAppend(group[0].lines, LinesOf(group[1..]));
    }
  }

  /** A group a batch may hold: within budget, or one indivisible unit. */
  predicate Allowed(group: seq<Unit>, budget: int)
  {
    Size(group) <= budget || |group| == 1
  }

  ghost predicate IsGrouping(groups: seq<seq<Unit>>, units: seq<Unit>, budget: int)
  {
    Flatten(groups) == units && forall k :: 0 <= k < |groups| ==> Allowed(groups[k], budget)
  }

  /** The first unit of `next` would not have fitted behind `group`. */
  predicate Tight(group: seq<Unit>, next: seq<Unit>, budget: int)
  {
    next != [] && Size(group) + Blen(next[0].lines) > budget
  }

  /** Nonempty allowed groups, none of which could have taken one more unit. */
  ghost predicate IsGreedy(groups: seq<seq<Unit>>, budget: int)
  {
    var n := |groups|;
    n == 0 || (
      && IsGreedy(groups[..n - 1], budget)
      && groups[n - 1] != [] && Allowed(groups[n - 1], budget)
      && (n >= 2 ==> Tight(groups[n - 2], groups[n - 1], budget)))
  }

  /** File labels in first-appearance order. */
  function Distinct(names: seq<string>): (r: seq<string>)
    ensures forall n :: n in r <==> n in names
    ensures forall i, j :: 0 <= i < j < |r| ==> r[i] != r[j]
  {
    if names == [] then []
    else
      var r := Distinct(names[..|names| - 1]);
      var x := names[|names| - 1];
      assert names == names[..|names| - 1] + [x];
      if x in r then r else r + [x]
  }

  function NamesOf(group: seq<Unit>): (names: seq<string>)
  {
    if group == [] then [] else NamesOf(group[..|group| - 1]) + group[|group| - 1].files
  }

  function BatchOf(group: seq<Unit>, budget: int): Batch
  {
    Batch(Flatten(LinesOf(group)), Distinct(NamesOf(group)), Size(group) > budget)
  }

  function Clamp(budget: int): int
  {
    if budget < 1 then 1 else budget
  }

  function Plan(diff: seq<Byte>, budget: int, fileOf: Label): seq<Unit>
  {
    AllUnits(CutAt(DIFF_GIT, SplitLines(diff)), Clamp(budget), fileOf)
  }

  lemma DistinctStep(names: seq<string>, x: string)
    ensures Distinct(names + [x]) == if x in names then Distinct(names) else Distinct(names) + [x]
  {
    assert (names + [x])[..|names|] == names;
  }

  /** The `files` loop of one unit. */
  method AddFiles(files: seq<string>, more: seq<string>, ghost names: seq<string>) returns (r: seq<string>)
    requires files == Distinct(names)
    ensures r == Distinct(names + more)
  {
    r := files;
    assert names + more[..0] == names;
    for i := 0 to |more|
      invariant r == Distinct(names + more[..i])
    {
      DistinctStep(names + more[..i], more[i]);
      assert names + more[..i + 1] == names + more[..i] + [more[i]];
      if more[i] !in r {
        r := r + [more[i]];
      }
    }
    assert more[..|more|] == more;
  }

  /** One batch per group, in order. */
  function BatchesOf(groups: seq<seq<Unit>>, budget: int): (batches: seq<Batch>)
    ensures |batches| == |groups|
    ensures forall k :: 0 <= k < |groups| ==> batches[k] == BatchOf(groups[k], budget)
  {
    seq(|groups|, k requires 0 <= k < |groups| => BatchOf(groups[k], budget))
  }

  lemma BatchesSnoc(groups: seq<seq<Unit>>, cur: seq<Unit>, budget: int)
    ensures BatchesOf(groups + [cur], budget) == BatchesOf(groups, budget) + [BatchOf(cur, budget)]
  {
  }

  /** The packing loop's state: closed groups, then the group being filled. */
  ghost predicate Filling(groups: seq<seq<Unit>>, cur: seq<Unit>, done: seq<Unit>, budget: int)
  {
    && IsGreedy(groups, budget)
    && Flatten(groups) + cur == done
    && (cur != [] ==> Allowed(cur, budget))
    && (groups != [] ==> if cur == [] then Size(groups[|groups| - 1]) > budget
                         else Tight(groups[|groups| - 1], cur, budget))
  }

  lemma CloseGroup(groups: seq<seq<Unit>>, cur: seq<Unit>, done: seq<Unit>, budget: int)
    requires Filling(groups, cur, done, budget) && cur != []
    ensures IsGreedy(groups + [cur], budget)
    ensures Flatten(groups + [cur]) == done
  {
    FlattenSnoc(groups, cur);
    assert (groups + [cur])[..|groups|] == groups;
  }

  lemma FillFresh(groups: seq<seq<Unit>>, cur: seq<Unit>, done: seq<Unit>, unit: Unit, budget: int)
    requires Filling(groups, cur, done, budget)
    requires cur != [] && Size(cur) + Blen(unit.lines) > budget
    ensures Filling(groups + [cur], [] + [unit], done + [unit], budget)
  {
    CloseGroup(groups, cur, done, budget);
    assert [] + [unit] == [unit];
  }

  lemma FillClosed(groups: seq<seq<Unit>>, cur: seq<Unit>, done: seq<Unit>, budget: int)
    requires Filling(groups, cur, done, budget)
    requires cur != [] && Size(cur) > budget
    ensures Filling(groups + [cur], [], done, budget)
  {
    CloseGroup(groups, cur, done, budget);
  }

  lemma FillSame(groups: seq<seq<Unit>>, cur: seq<Unit>, done: seq<Unit>, unit: Unit, budget: int)
    requires Filling(groups, cur, done, budget)
    requires cur == [] || Size(cur) + Blen(unit.lines) <= budget
    ensures Filling(groups, cur + [unit], done + [unit], budget)
  {
    GrowGroup(cur, unit);
    assert Flatten(groups) + (cur + [unit]) == (Flatten(groups) + cur) + [unit];
  }

  lemma GrowGroup(cur: seq<Unit>, unit: Unit)
    ensures Size(cur + [unit]) == Size(cur) + Blen(unit.lines)
    ensures LinesOf(cur + [unit]) == LinesOf(cur) + unit.lines
    ensures NamesOf(cur + [unit]) == NamesOf(cur) + unit.files
  {
    SizeAppend(cur, [unit]);
    assert Size([unit]) == Blen(unit.lines) && LinesOf([unit]) == unit.lines + LinesOf([]);
    assert (cur + [unit])[..|cur|] == cur;
  }

  /** The batch under construction: `cur_lines`, `cur_files`, `cur_bytes`. */
  datatype Open = Open(lines: seq<Line>, files: seq<string>, bytes: nat)

  const EMPTY: Open := Open([], [], 0)

  ghost predicate Holds(open: Open, cur: seq<Unit>, budget: int)
  {
    && open == Open(LinesOf(cur), Distinct(NamesOf(cur)), Size(cur))
    && (open.lines == [] <==> cur == [])
    && Size(cur) <= budget
  }

  /** Close the current batch if this unit would overflow it. */
  method MakeRoom(unit: Unit, budget: int, batches: seq<Batch>, open: Open,
                  ghost groups: seq<seq<Unit>>, ghost cur: seq<Unit>, ghost done: seq<Unit>)
    returns (batches': seq<Batch>, open': Open, ghost groups': seq<seq<Unit>>, ghost cur': seq<Unit>)
    requires budget >= 1 && unit.lines != []
    requires Filling(groups, cur, done, budget) && Holds(open, cur, budget)
    requires batches == BatchesOf(groups, budget)
    ensures Filling(groups', cur' + [unit], done + [unit], budget) && Holds(open', cur', budget)
    ensures batches' == BatchesOf(groups', budget)
    ensures cur' == [] || Size(cur') + Blen(unit.lines) <= budget
  {
    if open.lines != [] && open.bytes + Blen(unit.lines) > budget {
      FillFresh(groups, cur, done, unit, budget);
      BatchesSnoc(groups, cur, budget);
      batches' := batches + [Batch(Flatten(open.lines), open.files, false)];
      groups', cur', open' := groups + [cur], [], EMPTY;
    } else {
      FillSame(groups, cur, done, unit, budget);
      batches', open', groups', cur' := batches, open, groups, cur;
    }
  }

  /** One turn of the packing loop. */
  method PlaceUnit(unit: Unit, budget: int, batches: seq<Batch>, open: Open,
                   ghost groups: seq<seq<Unit>>, ghost cur: seq<Unit>, ghost done: seq<Unit>)
    returns (batches': seq<Batch>, open': Open, ghost groups': seq<seq<Unit>>, ghost cur': seq<Unit>)
    requires budget >= 1 && unit.lines != []
    requires Filling(groups, cur, done, budget) && Holds(open, cur, budget)
    requires batches == BatchesOf(groups, budget)
    ensures Filling(groups', cur', done + [unit], budget) && Holds(open', cur', budget)
    ensures batches' == BatchesOf(groups', budget)
  {
    var ub := Blen(unit.lines);
    batches', open', groups', cur' := MakeRoom(unit, budget, batches, open, groups, cur, done);
    GrowGroup(cur', unit);
    var files := AddFiles(open'.files, unit.files, NamesOf(cur'));
    open' := Open(open'.lines + unit.lines, files, open'.bytes + ub);
    cur' := cur' + [unit];
    if ub > budget {
      FillClosed(groups', cur', done + [unit], budget);
      BatchesSnoc(groups', cur', budget);
      batches' := batches' + [Batch(Flatten(open'.lines), open'.files, true)];
      groups', cur', open' := groups' + [cur'], [], EMPTY;
    }
  }

  /** Greedy, order-preserving packing of the units. */
  method PackUnits(units: seq<Unit>, budget: int) returns (batches: seq<Batch>, ghost groups: seq<seq<Unit>>)
    requires budget >= 1
    requires forall k :: 0 <= k < |units| ==> units[k].lines != []
    ensures Flatten(groups) == units && IsGreedy(groups, budget)
    ensures batches == BatchesOf(groups, budget)
  {
    batches, groups := [], [];
    ghost var cur: seq<Unit> := [];
    var open := EMPTY;
    for i := 0 to |units|
      invariant Filling(groups, cur, units[..i], budget) && Holds(open, cur, budget)
      invariant batches == BatchesOf(groups, budget)
    {
      TakeSnoc(units, i);
      batches, open, groups, cur := PlaceUnit(units[i], budget, batches, open, groups, cur, units[..i]);
    }
    assert units[..|units|] == units;
    if open.lines != [] {
      CloseGroup(groups, cur, units, budget);
      BatchesSnoc(groups, cur, budget);
      batches := batches + [Batch(Flatten(open.lines), open.files, false)];
      groups := groups + [cur];
    }
  }

  /** The greedy grouping, one unit at a time: a unit opens a new group only when it does not fit into the last. */
  function GroupsOf(units: seq<Unit>, budget: int): (groups: seq<seq<Unit>>)
  {
    if units == [] then []
    else
      var n, unit := |units| - 1, units[|units| - 1];
      var front := GroupsOf(units[..n], budget);
      if front == [] || Size(front[|front| - 1]) + Blen(unit.lines) > budget then front + [[unit]]
      else front[..|front| - 1] + [front[|front| - 1] + [unit]]
  }

  /** The batches of a diff. */
  function Planned(diff: seq<Byte>, budget: int, fileOf: Label): seq<Batch>
  {
    BatchesOf(GroupsOf(Plan(diff, budget, fileOf), Clamp(budget)), Clamp(budget))
  }
}
