/** The whole batch planner, loops included. */
module Planner {
  import opened Batching
  import opened BatchingLaws
  import opened Seqs

  lemma {:induction false} UnitsHaveLines(sections: seq<seq<Line>>, budget: int, fileOf: Label)
    requires forall k :: 0 <= k < |sections| ==> sections[k] != []
    ensures forall u :: 0 <= u < |AllUnits(sections, budget, fileOf)| ==> AllUnits(sections, budget, fileOf)[u].lines != []
  {
    if sections != [] {
      UnitsHaveLines(sections[1..], budget, fileOf);
      var hunks := HunksOf(sections[0]);
      CutAtIsCut(HUNK, sections[0][|HeaderOf(sections[0])|..]);
      assert forall k :: 0 <= k < |hunks| ==> hunks[k] != [];
    }
  }

  method Split(diff: seq<Byte>, budget: int, fileOf: Label) returns (batches: seq<Batch>)
    ensures batches == Planned(diff, budget, fileOf)
  {
    var limit := if budget < 1 then 1 else budget;
    var lines := SplitLines(diff);
    var sections := Sections(lines);
    var units: seq<Unit> := [];
    for k := 0 to |sections|
      invariant units == AllUnits(sections[..k], limit, fileOf)
    {
      var more := Units(sections[k], limit, fileOf);
      AllUnitsAppend(sections[..k], sections[k], limit, fileOf);
      TakeSnoc(sections, k);
      units := units + more;
    }
    assert sections[..|sections|] == sections;
    UnitsHaveLines(sections, limit, fileOf);
    ghost var groups;
    batches, groups := PackUnits(units, limit);
    OnlyGreedy(groups, units, limit);
  }
}
