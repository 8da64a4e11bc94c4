/** What a pack promises, and what it does not depend on. */
module ContextPackLaws {
  import opened ContextPack
  import opened Permutations
  import opened Seqs
  import opened Ticks

  // ------------------------------------------------------------- the partition

  lemma ClassifyStep(src: Source, pol: Policy, front: seq<Text>, p: Text)
    ensures var items, items' := Paths(Items(src, pol, front)), Paths(Items(src, pol, front + [p]));
            var out, out' := Names(Refused(src, pol, front)), Names(Refused(src, pol, front + [p]));
            multiset(items') + multiset(out') == multiset(items) + multiset(out) + multiset{p}
  {
    assert (front + [p])[..|front|] == front;
    if Early(src, pol, p).None? {
      MappedSnoc(ItemPath, Items(src, pol, front), Item(src.probe(p).value.size, p));
    } else {
      MappedSnoc(PathOf, Refused(src, pol, front), Entry(p, Early(src, pol, p).value));
    }
  }

  /** Every path is a candidate once, or refused once. */
  ghost predicate Classified(src: Source, pol: Policy, paths: seq<Text>)
  {
    multiset(Paths(Items(src, pol, paths))) + multiset(Names(Refused(src, pol, paths))) == multiset(paths)
  }

  lemma OneMoreClassified(src: Source, pol: Policy, front: seq<Text>, p: Text)
    requires Classified(src, pol, front)
    ensures Classified(src, pol, front + [p])
  {
    ClassifyStep(src, pol, front, p);
    CountSnoc(front, p);
  }

  lemma ClassifiedOnce(src: Source, pol: Policy, paths: seq<Text>)
    ensures Classified(src, pol, paths)
  {
    assert Classified(src, pol, []);
    for k := 0 to |paths|
      invariant Classified(src, pol, paths[..k])
    {
      OneMoreClassified(src, pol, paths[..k], paths[k]);
      TakeSnoc(paths, k);
    }
    assert paths[..|paths|] == paths;
  }

  /** Every path of a draft once: included, or omitted. */
  ghost predicate Accounts(d: Draft, paths: seq<Text>)
  {
    multiset(d.included) + multiset(Names(d.omitted)) == multiset(paths)
  }

  lemma {:induction false} FillAccounts(src: Source, headroom: int, items: seq<Item>)
    ensures Accounts(Fill(src, headroom, items), Paths(items))
  {
    if items != [] {
      var k := |items| - 1;
      var d := Fill(src, headroom, items[..k]);
      FillAccounts(src, headroom, items[..k]);
      var r := Late(src, headroom, Used(d), items[k]);
      if r.Some? {
        MappedSnoc(PathOf, d.omitted, Entry(items[k].path, r.value));
      }
    }
  }

  lemma {:induction false} NoRoomNames(items: seq<Item>)
    ensures Names(Mapped(NoRoom, items)) == Paths(items)
  {
    if items != [] {
      var k := |items| - 1;
      NoRoomNames(items[..k]);
      MappedSnoc(PathOf, Mapped(NoRoom, items[..k]), NoRoom(items[k]));
    }
  }

  lemma FilledAccounts(src: Source, pol: Policy, items: seq<Item>)
    ensures Accounts(Filled(src, pol, items), Paths(items))
  {
    FillAccounts(src, pol.headroom, items);
    NoRoomNames(items);
  }

  lemma DropAccounts(order: seq<Text>, d: Draft, paths: seq<Text>)
    requires |d.sections| == |d.included| > 0 && Accounts(d, paths)
    ensures Accounts(Drop(order, d), paths)
  {
    var k := |d.sections| - 1;
    var entry := Entry(d.included[k], OverHeadroom);
    assert d.included == d.included[..k] + [d.included[k]];
    MappedSnoc(PathOf, d.omitted, entry);
    MappedPermuted(PathOf, Listed(order, d.omitted + [entry]), d.omitted + [entry]);
  }

  // ------------------------------------------------------------------ sections

  /** Each included path's whole section, in order. */
  ghost predicate WholeSections(src: Source, d: Draft)
  {
    |d.sections| == |d.included| &&
    forall k :: 0 <= k < |d.sections| ==> src.load(d.included[k]).Some? && d.sections[k] == Section(src, d.included[k])
  }

  lemma {:induction false} FillSections(src: Source, headroom: int, items: seq<Item>)
    ensures WholeSections(src, Fill(src, headroom, items))
  {
    if items != [] {
      FillSections(src, headroom, items[..|items| - 1]);
    }
  }

  lemma UsedPrefix(d: Draft, k: nat)
    requires k < |d.sections|
    ensures |Flatten(d.sections[..k])| <= Used(d)
  {
    StartStep(d.sections, k);
  }

  /** What every draft keeps on its way through the trimming. */
  ghost predicate Good(src: Source, headroom: int, paths: seq<Text>, d: Draft)
  {
    WholeSections(src, d) && Accounts(d, paths) && (headroom > 0 ==> Used(d) <= headroom)
  }

  lemma DropGood(src: Source, headroom: int, order: seq<Text>, paths: seq<Text>, d: Draft)
    requires Good(src, headroom, paths, d) && d.sections != []
    ensures Good(src, headroom, paths, Drop(order, d))
  {
    DropAccounts(order, d, paths);
    UsedPrefix(d, |d.sections| - 1);
  }

  lemma {:induction false} TrimGood(src: Source, headroom: int, order: seq<Text>, paths: seq<Text>, d: Draft)
    requires Good(src, headroom, paths, d)
    ensures Good(src, headroom, paths, Trim(order, headroom, d)) && !TooLong(headroom, Trim(order, headroom, d))
    ensures d.omitted != [] ==> Trim(order, headroom, d).omitted != []
    decreases |d.sections|
  {
    if TooLong(headroom, d) {
      DropGood(src, headroom, order, paths, d);
      var more := d.omitted + [Entry(d.included[|d.sections| - 1], OverHeadroom)];
      assert |multiset(Listed(order, more))| == |multiset(more)| == |more|;
      TrimGood(src, headroom, order, paths, Drop(order, d));
    }
  }

  lemma SelectionAccounts(src: Source, pol: Policy, paths: seq<Text>)
    ensures multiset(Paths(Ordered(Items(src, pol, paths), pol.reserved))) + multiset(Names(Refused(src, pol, paths)))
            == multiset(paths)
  {
    var items := Items(src, pol, paths);
    forall x
      ensures multiset(Ordered(items, pol.reserved))[x] == multiset(items)[x]
    {
      OrderedPermutes(items, pol.reserved, x);
    }
    MappedPermuted(ItemPath, Ordered(items, pol.reserved), items);
    ClassifiedOnce(src, pol, paths);
  }

  lemma AllOmitted(paths: seq<Text>, refused: seq<Entry>, more: seq<Entry>)
    ensures multiset(Names(Listed(paths, refused + more))) == multiset(Names(refused)) + multiset(Names(more))
  {
    MappedPermuted(PathOf, Listed(paths, refused + more), refused + more);
    MappedAppend(PathOf, refused, more);
  }

  lemma UntrimmedAccounts(src: Source, pol: Policy, files: seq<Text>)
    ensures Accounts(Untrimmed(src, pol, Dedup(files)), Dedup(files))
  {
    var paths := Dedup(files);
    var ordered := Ordered(Items(src, pol, paths), pol.reserved);
    var d := Filled(src, pol, ordered);
    FilledAccounts(src, pol, ordered);
    SelectionAccounts(src, pol, paths);
    AllOmitted(paths, Refused(src, pol, paths), d.omitted);
  }

  lemma SameSections(src: Source, d: Draft, u: Draft)
    requires WholeSections(src, d) && u.sections == d.sections && u.included == d.included
    ensures WholeSections(src, u) && Used(u) == Used(d)
  {
  }

  lemma UntrimmedGood(src: Source, pol: Policy, files: seq<Text>)
    ensures Good(src, pol.headroom, Dedup(files), Untrimmed(src, pol, Dedup(files)))
  {
    var ordered := Ordered(Items(src, pol, Dedup(files)), pol.reserved);
    FilledShape(src, pol, ordered);
    FillSections(src, pol.headroom, ordered);
    UntrimmedAccounts(src, pol, files);
    var d, u := Filled(src, pol, ordered), Untrimmed(src, pol, Dedup(files));
    SameSections(src, d, u);
  }

  lemma PackingIs(src: Source, pol: Policy, files: seq<Text>)
    ensures var u := Untrimmed(src, pol, Dedup(files));
            |u.sections| == |u.included| &&
            Packing(src, pol, files) == if u.omitted != [] && pol.headroom > 0 then Trim(Dedup(files), pol.headroom, u) else u
  {
    UntrimmedGood(src, pol, files);
  }

  lemma PackingGood(src: Source, pol: Policy, files: seq<Text>)
    ensures var d := Packing(src, pol, files);
            Good(src, pol.headroom, Dedup(files), d)
            && (pol.headroom > 0 ==> d.omitted == [] || !TooLong(pol.headroom, d))
  {
    PackingIs(src, pol, files);
    UntrimmedGood(src, pol, files);
    var u := Untrimmed(src, pol, Dedup(files));
    if u.omitted != [] && pol.headroom > 0 {
      TrimGood(src, pol.headroom, Dedup(files), Dedup(files), u);
    }
  }

  /** Included and omitted paths together are the distinct input paths, each exactly once. */
  lemma Partition(src: Source, pol: Policy, files: seq<Text>)
    ensures var d := Packing(src, pol, files);
            multiset(d.included) + multiset(Names(d.omitted)) == multiset(Dedup(files))
    ensures WholeSections(src, Packing(src, pol, files))
  {
    PackingGood(src, pol, files);
  }

  /** The promised shape of the body of a draft. */
  predicate Shaped(headroom: int, d: Draft, body: Bytes)
  {
    && |body| <= (if headroom > 0 then headroom else 0)
    && (headroom <= 0 ==> d.included == [])
    && (body != [] ==> body == (if d.omitted == [] then [] else Header(d.omitted)) + Flatten(d.sections))
    && (body == [] ==> d.included == [])
  }

  lemma GoodIsShaped(src: Source, headroom: int, paths: seq<Text>, d: Draft)
    requires headroom > 0 && Good(src, headroom, paths, d) && (d.omitted == [] || !TooLong(headroom, d))
    ensures Shaped(headroom, d, Body(headroom, d))
  {
    if d.sections != [] {
      SectionsShow(src, d);
    } else {
      assert Flatten(d.sections) == [];
    }
  }

  lemma NothingIncluded(src: Source, pol: Policy, files: seq<Text>)
    requires pol.headroom <= 0
    ensures Packing(src, pol, files).included == []
  {
    PackingIs(src, pol, files);
  }

  /**
   * The body fits the headroom. It is the header listing exactly the omissions, then the included
   * sections; and the header is left out over a non-empty list only when no section is in either.
   */
  lemma BodyShape(src: Source, pol: Policy, files: seq<Text>)
    ensures Shaped(pol.headroom, Packing(src, pol, files), Body(pol.headroom, Packing(src, pol, files)))
  {
    if pol.headroom > 0 {
      PackingGood(src, pol, files);
      GoodIsShaped(src, pol.headroom, Dedup(files), Packing(src, pol, files));
    } else {
      NothingIncluded(src, pol, files);
    }
  }

  /** A draft with a section has a non-empty body. */
  lemma SectionsShow(src: Source, d: Draft)
    requires WholeSections(src, d) && d.sections != []
    ensures Flatten(d.sections) != []
  {
    assert |d.sections[0]| > 0;
  }

  // -------------------------------------------------- the order of the arguments

  /** Two lists naming the same files, in any order and with any repetition. */
  ghost predicate SameFiles(a: seq<Text>, b: seq<Text>)
  {
    forall p :: p in a <==> p in b
  }

  lemma SameDistinct(a: seq<Text>, b: seq<Text>)
    requires SameFiles(a, b)
    ensures multiset(Dedup(a)) == multiset(Dedup(b))
  {
    DistinctCounts(Dedup(a));
    DistinctCounts(Dedup(b));
    forall p
      ensures multiset(Dedup(a))[p] == multiset(Dedup(b))[p]
    {
      assert p in Dedup(a) <==> p in Dedup(b);
      assert p in multiset(Dedup(a)) <==> p in multiset(Dedup(b));
    }
  }

  lemma {:induction false} ItemsCount(src: Source, pol: Policy, paths: seq<Text>, x: Item)
    ensures multiset(Items(src, pol, paths))[x]
            == if Early(src, pol, x.path).None? && src.probe(x.path).value.size == x.size then multiset(paths)[x.path] else 0
  {
    if paths != [] {
      ItemsCount(src, pol, paths[..|paths| - 1], x);
      assert paths == paths[..|paths| - 1] + [paths[|paths| - 1]];
    }
  }

  lemma {:induction false} RefusedCount(src: Source, pol: Policy, paths: seq<Text>, e: Entry)
    ensures multiset(Refused(src, pol, paths))[e] == if Early(src, pol, e.path) == Some(e.reason) then multiset(paths)[e.path] else 0
  {
    if paths != [] {
      RefusedCount(src, pol, paths[..|paths| - 1], e);
      assert paths == paths[..|paths| - 1] + [paths[|paths| - 1]];
    }
  }

  lemma ClassificationForgets(src: Source, pol: Policy, a: seq<Text>, b: seq<Text>)
    requires multiset(a) == multiset(b)
    ensures multiset(Items(src, pol, a)) == multiset(Items(src, pol, b))
    ensures multiset(Refused(src, pol, a)) == multiset(Refused(src, pol, b))
  {
    forall x ensures multiset(Items(src, pol, a))[x] == multiset(Items(src, pol, b))[x] {
      ItemsCount(src, pol, a, x);
      ItemsCount(src, pol, b, x);
    }
    forall e ensures multiset(Refused(src, pol, a))[e] == multiset(Refused(src, pol, b))[e] {
      RefusedCount(src, pol, a, e);
      RefusedCount(src, pol, b, e);
    }
  }

  lemma ItemsDistinct(src: Source, pol: Policy, paths: seq<Text>)
    requires Distinct(paths)
    ensures Distinct(Items(src, pol, paths))
  {
    DistinctCounts(paths);
    forall x ensures multiset(Items(src, pol, paths))[x] <= 1 {
      ItemsCount(src, pol, paths, x);
    }
    DistinctCounts(Items(src, pol, paths));
  }

  /** The same sections and included paths, and the same omissions up to order. */
  ghost predicate Alike(a: Draft, b: Draft)
  {
    a.sections == b.sections && a.included == b.included && multiset(a.omitted) == multiset(b.omitted)
  }

  lemma DropAlike(pa: seq<Text>, pb: seq<Text>, a: Draft, b: Draft)
    requires Alike(a, b) && |a.sections| == |a.included| > 0
    ensures Alike(Drop(pa, a), Drop(pb, b))
  {
    var e := Entry(a.included[|a.sections| - 1], OverHeadroom);
    CountSnoc(a.omitted, e);
    CountSnoc(b.omitted, e);
  }

  lemma {:induction false} TrimForgets(pa: seq<Text>, pb: seq<Text>, headroom: int, a: Draft, b: Draft)
    requires Alike(a, b) && |a.sections| == |a.included|
    ensures Alike(Trim(pa, headroom, a), Trim(pb, headroom, b))
    decreases |a.sections|
  {
    HeaderLength(a.omitted, b.omitted);
    if TooLong(headroom, a) {
      DropAlike(pa, pb, a, b);
      TrimForgets(pa, pb, headroom, Drop(pa, a), Drop(pb, b));
      TrimStep(pa, headroom, a);
      TrimStep(pb, headroom, b);
    }
  }

  lemma UntrimmedForgets(src: Source, pol: Policy, a: seq<Text>, b: seq<Text>)
    requires SameFiles(a, b)
    ensures Alike(Untrimmed(src, pol, Dedup(a)), Untrimmed(src, pol, Dedup(b)))
  {
    SameDistinct(a, b);
    ClassificationForgets(src, pol, Dedup(a), Dedup(b));
    ItemsDistinct(src, pol, Dedup(a));
    OrderedForgets(Items(src, pol, Dedup(a)), Items(src, pol, Dedup(b)), pol.reserved);
  }

  lemma AlikeBodies(headroom: int, a: Draft, b: Draft)
    requires Alike(a, b)
    ensures |Body(headroom, a)| == |Body(headroom, b)|
  {
    assert |multiset(a.omitted)| == |a.omitted| && |multiset(b.omitted)| == |b.omitted|;
    HeaderLength(a.omitted, b.omitted);
  }

  /**
   * Naming the files in another order, or twice, changes neither which are included, nor in what
   * order, nor the length of the body; only the entries of the omission header can move.
   */
  lemma OrderOfFilesForgotten(src: Source, pol: Policy, a: seq<Text>, b: seq<Text>)
    requires SameFiles(a, b)
    ensures var x, y := Packing(src, pol, a), Packing(src, pol, b);
            && x.included == y.included && x.sections == y.sections
            && multiset(x.omitted) == multiset(y.omitted)
            && |Body(pol.headroom, x)| == |Body(pol.headroom, y)|
  {
    PackingIs(src, pol, a);
    PackingIs(src, pol, b);
    UntrimmedForgets(src, pol, a, b);
    var u, v := Untrimmed(src, pol, Dedup(a)), Untrimmed(src, pol, Dedup(b));
    assert |multiset(u.omitted)| == |u.omitted| && |multiset(v.omitted)| == |v.omitted|;
    if u.omitted != [] && pol.headroom > 0 {
      TrimForgets(Dedup(a), Dedup(b), pol.headroom, u, v);
    }
    AlikeBodies(pol.headroom, Packing(src, pol, a), Packing(src, pol, b));
  }

  // ------------------------------------------------------------ why, and how much

  /** The candidates in the order in which they get their turns. */
  function Selection(src: Source, pol: Policy, files: seq<Text>): seq<Item>
  {
    Ordered(Items(src, pol, Dedup(files)), pol.reserved)
  }

  /** What is wrong with a candidate whose turn comes when `used` bytes are taken. */
  predicate Applies(src: Source, headroom: int, used: nat, x: Item, reason: Reason)
  {
    match reason
    case OverHeadroom =>
      || used + Overhead(x.path) + x.size + 1 > headroom
      || (src.load(x.path).Some? && !src.load(x.path).value.binary && used + |Section(src, x.path)| > headroom)
    case Missing => src.load(x.path).None?
    case Binary => src.load(x.path).Some? && src.load(x.path).value.binary
    case _ => false
  }

  /** The entry's reason applied at its path's turn, given what was taken before it. */
  ghost predicate OutAtTurn(src: Source, headroom: int, items: seq<Item>, e: Entry)
  {
    exists k :: 0 <= k < |items| && items[k].path == e.path
                && Applies(src, headroom, Used(Fill(src, headroom, items[..k])), items[k], e.reason)
  }

  /** The draft once only its first n sections are left. */
  function Cut(order: seq<Text>, d: Draft, n: nat): Draft
    requires |d.sections| == |d.included|
    decreases |d.sections|
  {
    if |d.sections| <= n then d else Cut(order, Drop(order, d), n)
  }

  /** The path had been taken, but with it as the last one the header no longer fitted. */
  ghost predicate Trimmed(order: seq<Text>, headroom: int, d: Draft, e: Entry)
    requires |d.sections| == |d.included|
  {
    e.reason == OverHeadroom &&
    exists j :: 0 <= j < |d.included| && d.included[j] == e.path && TooLong(headroom, Cut(order, d, j + 1))
  }

  /** The reason given for a path is the one that applied to it. */
  ghost predicate TrueReason(src: Source, pol: Policy, files: seq<Text>, e: Entry)
  {
    UntrimmedGood(src, pol, files);
    match Early(src, pol, e.path)
    case Some(r) => e.reason == r
    case None =>
      if pol.headroom <= 0 then e.reason == OverHeadroom
      else
        || OutAtTurn(src, pol.headroom, Selection(src, pol, files), e)
        || Trimmed(Dedup(files), pol.headroom, Untrimmed(src, pol, Dedup(files)), e)
  }

  lemma {:induction false} ItemsAreCandidates(src: Source, pol: Policy, paths: seq<Text>)
    ensures forall x :: x in Items(src, pol, paths) ==> Early(src, pol, x.path).None?
  {
    if paths != [] {
      ItemsAreCandidates(src, pol, paths[..|paths| - 1]);
    }
  }

  lemma {:induction false} RefusedAreNone(src: Source, pol: Policy, paths: seq<Text>)
    ensures forall e :: e in Refused(src, pol, paths) ==> Early(src, pol, e.path) == Some(e.reason)
  {
    if paths != [] {
      RefusedAreNone(src, pol, paths[..|paths| - 1]);
    }
  }

  lemma SelectedAreCandidates(src: Source, pol: Policy, files: seq<Text>, x: Item)
    requires x in Selection(src, pol, files)
    ensures Early(src, pol, x.path).None?
  {
    var items := Items(src, pol, Dedup(files));
    ItemsAreCandidates(src, pol, Dedup(files));
    OrderedPermutes(items, pol.reserved, x);
    assert x in multiset(Ordered(items, pol.reserved));
    assert x in multiset(items);
  }

  lemma OutStillOut(src: Source, headroom: int, front: seq<Item>, x: Item, e: Entry)
    requires OutAtTurn(src, headroom, front, e)
    ensures OutAtTurn(src, headroom, front + [x], e)
  {
    var k :| 0 <= k < |front| && front[k].path == e.path
             && Applies(src, headroom, Used(Fill(src, headroom, front[..k])), front[k], e.reason);
    assert (front + [x])[..k] == front[..k];
    assert (front + [x])[k] == front[k];
  }

  lemma OutNow(src: Source, headroom: int, front: seq<Item>, x: Item)
    requires Late(src, headroom, Used(Fill(src, headroom, front)), x).Some?
    ensures OutAtTurn(src, headroom, front + [x],
                      Entry(x.path, Late(src, headroom, Used(Fill(src, headroom, front)), x).value))
  {
    assert (front + [x])[..|front|] == front;
    assert (front + [x])[|front|] == x;
  }

  lemma {:induction false} FillReasons(src: Source, headroom: int, items: seq<Item>, e: Entry)
    requires e in Fill(src, headroom, items).omitted
    ensures OutAtTurn(src, headroom, items, e)
  {
    if items != [] {
      var front, x := items[..|items| - 1], items[|items| - 1];
      assert items == front + [x];
      if e in Fill(src, headroom, front).omitted {
        FillReasons(src, headroom, front, e);
        OutStillOut(src, headroom, front, x, e);
      } else {
        OutNow(src, headroom, front, x);
      }
    }
  }

  lemma {:induction false} FillTakes(src: Source, headroom: int, items: seq<Item>, p: Text)
    requires p in Fill(src, headroom, items).included
    ensures exists x :: x in items && x.path == p
  {
    if items != [] {
      var front, x := items[..|items| - 1], items[|items| - 1];
      assert items == front + [x];
      if p in Fill(src, headroom, front).included {
        FillTakes(src, headroom, front, p);
        var y :| y in front && y.path == p;
        assert y in items;
      } else {
        assert x in items;
      }
    }
  }

  lemma TrimmedStill(order: seq<Text>, headroom: int, d: Draft, e: Entry)
    requires |d.sections| == |d.included| > 0 && Trimmed(order, headroom, Drop(order, d), e)
    ensures Trimmed(order, headroom, d, e)
  {
    var less := Drop(order, d);
    var j :| 0 <= j < |less.included| && less.included[j] == e.path && TooLong(headroom, Cut(order, less, j + 1));
    assert Cut(order, d, j + 1) == Cut(order, less, j + 1);
    assert d.included[j] == e.path;
  }

  lemma TrimmedNow(order: seq<Text>, headroom: int, d: Draft)
    requires |d.sections| == |d.included| && TooLong(headroom, d)
    ensures Trimmed(order, headroom, d, Entry(d.included[|d.sections| - 1], OverHeadroom))
  {
    assert Cut(order, d, |d.sections|) == d;
  }

  lemma DropOmits(order: seq<Text>, d: Draft, e: Entry)
    requires |d.sections| == |d.included| > 0 && e in Drop(order, d).omitted
    ensures e in d.omitted || e == Entry(d.included[|d.sections| - 1], OverHeadroom)
  {
    var more := d.omitted + [Entry(d.included[|d.sections| - 1], OverHeadroom)];
    InBoth(Listed(order, more), more, e);
  }

  lemma {:induction false} TrimReasons(order: seq<Text>, headroom: int, d: Draft, e: Entry)
    requires |d.sections| == |d.included| && e in Trim(order, headroom, d).omitted
    ensures e in d.omitted || Trimmed(order, headroom, d, e)
    decreases |d.sections|
  {
    if TooLong(headroom, d) {
      TrimReasons(order, headroom, Drop(order, d), e);
      if e in Drop(order, d).omitted {
        DropOmits(order, d, e);
        TrimmedNow(order, headroom, d);
      } else {
        TrimmedStill(order, headroom, d, e);
      }
    }
  }

  lemma {:induction false} NoRoomReasons(items: seq<Item>, e: Entry)
    requires e in Mapped(NoRoom, items)
    ensures e.reason == OverHeadroom && exists x :: x in items && x.path == e.path
  {
    if items != [] {
      var front, x := items[..|items| - 1], items[|items| - 1];
      assert items == front + [x];
      if e in Mapped(NoRoom, front) {
        NoRoomReasons(front, e);
        var y :| y in front && y.path == e.path;
        assert y in items;
      } else {
        assert x in items;
      }
    }
  }

  /** Before the trimming: refused early, out at its turn, or without any headroom. */
  lemma UntrimmedReasons(src: Source, pol: Policy, files: seq<Text>, e: Entry)
    requires e in Untrimmed(src, pol, Dedup(files)).omitted
    ensures TrueReason(src, pol, files, e)
  {
    var paths, items := Dedup(files), Selection(src, pol, files);
    var refused, late := Refused(src, pol, paths), Filled(src, pol, items).omitted;
    InBoth(Listed(paths, refused + late), refused + late, e);
    RefusedAreNone(src, pol, paths);
    if e !in refused {
      LateReasons(src, pol, files, e);
    }
  }

  lemma LateReasons(src: Source, pol: Policy, files: seq<Text>, e: Entry)
    requires e in Filled(src, pol, Selection(src, pol, files)).omitted
    ensures TrueReason(src, pol, files, e)
  {
    var items := Selection(src, pol, files);
    if pol.headroom <= 0 {
      NoRoomReasons(items, e);
      var x :| x in items && x.path == e.path;
      SelectedAreCandidates(src, pol, files, x);
    } else {
      FillReasons(src, pol.headroom, items, e);
      var k :| 0 <= k < |items| && items[k].path == e.path;
      SelectedAreCandidates(src, pol, files, items[k]);
    }
  }

  lemma TrimmedReasons(src: Source, pol: Policy, files: seq<Text>, e: Entry)
    requires pol.headroom > 0 && |Untrimmed(src, pol, Dedup(files)).sections| == |Untrimmed(src, pol, Dedup(files)).included|
    requires Trimmed(Dedup(files), pol.headroom, Untrimmed(src, pol, Dedup(files)), e)
    ensures TrueReason(src, pol, files, e)
  {
    var items := Selection(src, pol, files);
    assert e.path in Fill(src, pol.headroom, items).included;
    FillTakes(src, pol.headroom, items, e.path);
    var x :| x in items && x.path == e.path;
    SelectedAreCandidates(src, pol, files, x);
  }

  /**
   * Every reason in the pack is the one that applied: a candidate is over the headroom exactly
   * because it did not fit at its turn, or because it was given up for the header.
   */
  lemma ReasonsAreTrue(src: Source, pol: Policy, files: seq<Text>)
    ensures forall e :: e in Packing(src, pol, files).omitted ==> TrueReason(src, pol, files, e)
  {
    PackingIs(src, pol, files);
    forall e | e in Packing(src, pol, files).omitted
      ensures TrueReason(src, pol, files, e)
    {
      if e in Untrimmed(src, pol, Dedup(files)).omitted {
        UntrimmedReasons(src, pol, files, e);
      } else {
        TrimReasons(Dedup(files), pol.headroom, Untrimmed(src, pol, Dedup(files)), e);
        TrimmedReasons(src, pol, files, e);
      }
    }
  }

  /** The room one candidate may ask for: its size as probed, or its section as loaded. */
  function Room(src: Source, x: Item): nat
    requires src.load(x.path).Some?
  {
    var probed := Overhead(x.path) + x.size + 1;
    if probed < |Section(src, x.path)| then |Section(src, x.path)| else probed
  }

  function TotalRoom(src: Source, items: seq<Item>): nat
    requires forall x :: x in items ==> src.load(x.path).Some?
  {
    if items == [] then 0
    else
      assert items[|items| - 1] in items;
      TotalRoom(src, items[..|items| - 1]) + Room(src, items[|items| - 1])
  }

  /** With room for all of them, every readable candidate is taken: nothing is left out needlessly. */
  lemma {:induction false} EnoughRoomTakesAll(src: Source, headroom: int, items: seq<Item>)
    requires forall x :: x in items ==> src.load(x.path).Some? && !src.load(x.path).value.binary
    requires TotalRoom(src, items) <= headroom
    ensures var d := Fill(src, headroom, items);
            d.included == Paths(items) && d.omitted == [] && Used(d) <= TotalRoom(src, items)
  {
    if items != [] {
      var front, x := items[..|items| - 1], items[|items| - 1];
      assert x in items;
      EnoughRoomTakesAll(src, headroom, front);
      TakesOneMore(src, headroom, Fill(src, headroom, front), x);
    }
  }

  lemma TakesOneMore(src: Source, headroom: int, d: Draft, x: Item)
    requires src.load(x.path).Some? && !src.load(x.path).value.binary && Used(d) + Room(src, x) <= headroom
    ensures var d' := Step(src, headroom, d, x);
            d'.included == d.included + [x.path] && d'.omitted == d.omitted && Used(d') <= Used(d) + Room(src, x)
  {
    FlattenSnoc(d.sections, Section(src, x.path));
  }
}
