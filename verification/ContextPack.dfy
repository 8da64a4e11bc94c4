/** The context packer: whole files, greedily, under one byte envelope, with every omission on record. */
module ContextPack {
  import opened Permutations
  import opened Seqs
  import opened Ticks

  // ------------------------------------------------------------------- text

  /** Text is a list of code points; a lone surrogate is one too. */
  type Text = seq<nat>

  /** Bytes on the wire. */
  type Bytes = seq<nat>

  function Codes(s: string): Text
  {
    seq(|s|, i requires 0 <= i < |s| => s[i] as nat)
  }

  predicate Surrogate(c: nat) { 0xD800 <= c <= 0xDFFF }

  /** A surrogate that stands for one undecodable byte. */
  predicate Escape(c: nat) { 0xDC80 <= c <= 0xDCFF }

  function Utf8(c: nat): Bytes
  {
    if c < 0x80 then [c]
    else if c < 0x800 then [0xC0 + c / 0x40, 0x80 + c % 0x40]
    else if c < 0x1_0000 then [0xE0 + c / 0x1000, 0x80 + c / 0x40 % 0x40, 0x80 + c % 0x40]
    else [0xF0 + c / 0x4_0000, 0x80 + c / 0x1000 % 0x40, 0x80 + c / 0x40 % 0x40, 0x80 + c % 0x40]
  }

  function Hex(d: nat): nat { if d < 10 then 48 + d else 87 + d }

  /** One code point: back to its byte when every surrogate allows it, spelled out visibly otherwise. */
  function EncodeOne(exact: bool, c: nat): Bytes
  {
    if !Surrogate(c) then Utf8(c)
    else if exact && Escape(c) then [c - 0xDC00]
    else [92, 117, Hex(c / 0x1000 % 16), Hex(c / 0x100 % 16), Hex(c / 16 % 16), Hex(c % 16)]
  }

  predicate Exact(text: Text)
  {
    forall c :: c in text ==> Surrogate(c) ==> Escape(c)
  }

  function Spell(exact: bool, text: Text): Bytes
  {
    if text == [] then [] else Spell(exact, text[..|text| - 1]) + EncodeOne(exact, text[|text| - 1])
  }

  /** Never fails: one surrogate that names no byte switches the whole text to the visible form. */
  function Encode(text: Text): Bytes
  {
    Spell(Exact(text), text)
  }

  function Width(exact: bool): nat -> nat
  {
    c => |EncodeOne(exact, c)|
  }

  lemma {:induction false} SpellWidth(exact: bool, text: Text)
    ensures |Spell(exact, text)| == Sum(Width(exact), text)
  {
    if text != [] {
      SpellWidth(exact, text[..|text| - 1]);
    }
  }

  // ------------------------------------------------------------------ reasons

  datatype Reason = Deleted | Binary | AlreadyInDiff | Missing | OverFileCap | OverHeadroom

  function Label(r: Reason): Text
  {
    Codes(match r
          case Deleted => "deleted"
          case Binary => "binary"
          case AlreadyInDiff => "already-in-diff"
          case Missing => "missing"
          case OverFileCap => "over-file-cap"
          case OverHeadroom => "over-headroom")
  }

  datatype Entry = Entry(path: Text, reason: Reason)

  function Note(e: Entry): Text
  {
    e.path + Codes(" (") + Label(e.reason) + Codes(")")
  }

  /** What stands in front of entry k. */
  function Comma(k: nat): Text
  {
    if k == 0 then [] else Codes(", ")
  }

  /** Entries joined by a comma and a blank. */
  function Joined(omitted: seq<Entry>): Text
  {
    if omitted == [] then []
    else
      var k := |omitted| - 1;
      Joined(omitted[..k]) + Comma(k) + Note(omitted[k])
  }

  function HeaderText(omitted: seq<Entry>): Text
  {
    Codes("Context omitted for: ") + Joined(omitted) + Codes("\n")
  }

  function Header(omitted: seq<Entry>): Bytes
  {
    Encode(HeaderText(omitted))
  }

  function BeginMarker(path: Text): Bytes
  {
    Encode(Codes("----- BEGIN FILE CONTEXT: ") + path + Codes(" -----\n"))
  }

  function EndMarker(): Bytes
  {
    Codes("----- END FILE CONTEXT -----\n")
  }

  // ------------------------------------- the header's size forgets entry order

  function NoteWidth(exact: bool): Entry -> nat
  {
    e => Sum(Width(exact), Note(e))
  }

  /** The width of the separators between n entries. */
  function Commas(exact: bool, n: nat): nat
  {
    if n <= 1 then 0 else Commas(exact, n - 1) + Sum(Width(exact), Codes(", "))
  }

  lemma {:induction false} JoinedWidth(exact: bool, omitted: seq<Entry>)
    ensures Sum(Width(exact), Joined(omitted)) == Sum(NoteWidth(exact), omitted) + Commas(exact, |omitted|)
  {
    if omitted != [] {
      var k := |omitted| - 1;
      var w := Width(exact);
      JoinedWidth(exact, omitted[..k]);
      SumAppend(w, Joined(omitted[..k]) + Comma(k), Note(omitted[k]));
      SumAppend(w, Joined(omitted[..k]), Comma(k));
    }
  }

  /** Every entry's text allows the exact form. */
  predicate ExactEntries(omitted: seq<Entry>)
  {
    forall e :: e in omitted ==> Exact(Note(e))
  }

  lemma ExactParts(a: Text, b: Text)
    ensures Exact(a + b) <==> Exact(a) && Exact(b)
  {
    forall c
      ensures c in a + b <==> c in a || c in b
    {
    }
  }

  lemma ExactEntriesSnoc(omitted: seq<Entry>, e: Entry)
    ensures ExactEntries(omitted + [e]) <==> ExactEntries(omitted) && Exact(Note(e))
  {
    forall d
      ensures d in omitted + [e] <==> d in omitted || d == e
    {
    }
  }

  lemma CommaExact(k: nat)
    ensures Exact(Comma(k))
  {
  }

  lemma ExactThree(a: Text, b: Text, c: Text)
    requires Exact(b)
    ensures Exact(a + b + c) <==> Exact(a) && Exact(c)
  {
    ExactParts(a + b, c);
    ExactParts(a, b);
  }

  lemma JoinedSnoc(front: seq<Entry>, e: Entry)
    ensures Exact(Joined(front + [e])) <==> Exact(Joined(front)) && Exact(Note(e))
  {
    assert (front + [e])[..|front|] == front;
    CommaExact(|front|);
    ExactThree(Joined(front), Comma(|front|), Note(e));
  }

  lemma {:induction false} ExactJoined(omitted: seq<Entry>)
    ensures Exact(Joined(omitted)) <==> ExactEntries(omitted)
  {
    if omitted != [] {
      var front, e := omitted[..|omitted| - 1], omitted[|omitted| - 1];
      ExactJoined(front);
      JoinedSnoc(front, e);
      ExactEntriesSnoc(front, e);
      assert omitted == front + [e];
    }
  }

  lemma SameEntriesExact(a: seq<Entry>, b: seq<Entry>)
    requires multiset(a) == multiset(b)
    ensures ExactEntries(a) == ExactEntries(b)
  {
    forall e
      ensures e in a <==> e in b
    {
      InBoth(a, b, e);
    }
  }

  /** Permuting the entries can move them around in the header, but not change its length. */
  lemma HeaderLength(a: seq<Entry>, b: seq<Entry>)
    requires multiset(a) == multiset(b)
    ensures |Header(a)| == |Header(b)|
  {
    ExactHeader(a);
    ExactHeader(b);
    SameEntriesExact(a, b);
    HeaderPermuted(Exact(HeaderText(a)), a, b);
  }

  lemma HeaderPermuted(exact: bool, a: seq<Entry>, b: seq<Entry>)
    requires multiset(a) == multiset(b)
    ensures |Spell(exact, HeaderText(a))| == |Spell(exact, HeaderText(b))|
  {
    assert |a| == |b| by {
      assert |multiset(a)| == |a| && |multiset(b)| == |b|;
    }
    HeaderWidth(exact, a);
    HeaderWidth(exact, b);
    SumPermuted(NoteWidth(exact), a, b);
  }

  lemma ExactHeader(omitted: seq<Entry>)
    ensures Exact(HeaderText(omitted)) <==> ExactEntries(omitted)
  {
    ExactJoined(omitted);
    var prefix := Codes("Context omitted for: ");
    ExactParts(prefix + Joined(omitted), Codes("\n"));
    ExactParts(prefix, Joined(omitted));
  }

  lemma HeaderWidth(exact: bool, omitted: seq<Entry>)
    ensures |Spell(exact, HeaderText(omitted))|
            == Sum(Width(exact), Codes("Context omitted for: ")) + Sum(NoteWidth(exact), omitted)
               + Commas(exact, |omitted|) + Sum(Width(exact), Codes("\n"))
  {
    var w, prefix := Width(exact), Codes("Context omitted for: ");
    SpellWidth(exact, HeaderText(omitted));
    SumAppend(w, prefix + Joined(omitted), Codes("\n"));
    SumAppend(w, prefix, Joined(omitted));
    JoinedWidth(exact, omitted);
  }

  // ---------------------------------------------------------- selection order

  /** Code point order on paths. */
  predicate Less(a: Text, b: Text)
  {
    b != [] && (a == [] || a[0] < b[0] || (a[0] == b[0] && Less(a[1..], b[1..])))
  }

  lemma {:induction false} LessIrreflexive(a: Text)
    ensures !Less(a, a)
  {
    if a != [] {
      LessIrreflexive(a[1..]);
    }
  }

  lemma {:induction false} LessTransitive(a: Text, b: Text, c: Text)
    requires Less(a, b) && Less(b, c)
    ensures Less(a, c)
  {
    if a != [] && a[0] == b[0] == c[0] {
      LessTransitive(a[1..], b[1..], c[1..]);
    }
  }

  lemma {:induction false} LessDecides(a: Text, b: Text)
    requires a != b
    ensures Less(a, b) || Less(b, a)
  {
    if a != [] && b != [] && a[0] == b[0] {
      assert a == [a[0]] + a[1..] && b == [b[0]] + b[1..];
      LessDecides(a[1..], b[1..]);
    }
  }

  datatype Item = Item(size: nat, path: Text)

  predicate LargerFirst(a: Item, b: Item)
  {
    a.size > b.size || (a.size == b.size && Less(a.path, b.path))
  }

  predicate SmallerFirst(a: Item, b: Item)
  {
    a.size < b.size || (a.size == b.size && Less(a.path, b.path))
  }

  lemma LargerFirstOrders(elems: set<Item>)
    ensures Orders(LargerFirst, elems)
  {
    forall a | a in elems ensures !LargerFirst(a, a) {
      LessIrreflexive(a.path);
    }
    forall a, b, c | a in elems && b in elems && c in elems && LargerFirst(a, b) && LargerFirst(b, c)
      ensures LargerFirst(a, c)
    {
      if a.size == b.size == c.size {
        LessTransitive(a.path, b.path, c.path);
      }
    }
    forall a, b | a in elems && b in elems && a != b ensures LargerFirst(a, b) || LargerFirst(b, a) {
      if a.size == b.size {
        LessDecides(a.path, b.path);
      }
    }
  }

  lemma SmallerFirstOrders(elems: set<Item>)
    ensures Orders(SmallerFirst, elems)
  {
    forall a | a in elems ensures !SmallerFirst(a, a) {
      LessIrreflexive(a.path);
    }
    forall a, b, c | a in elems && b in elems && c in elems && SmallerFirst(a, b) && SmallerFirst(b, c)
      ensures SmallerFirst(a, c)
    {
      if a.size == b.size == c.size {
        LessTransitive(a.path, b.path, c.path);
      }
    }
    forall a, b | a in elems && b in elems && a != b ensures SmallerFirst(a, b) || SmallerFirst(b, a) {
      if a.size == b.size {
        LessDecides(a.path, b.path);
      }
    }
  }

  function Pick(items: seq<Item>, wanted: set<Text>, keep: bool): seq<Item>
  {
    if items == [] then []
    else
      var x := items[|items| - 1];
      var front := Pick(items[..|items| - 1], wanted, keep);
      if (x.path in wanted) == keep then front + [x] else front
  }

  /** Reserved files first, smallest first; then, or only, the largest first. */
  function Ordered(items: seq<Item>, wanted: set<Text>): seq<Item>
  {
    if wanted != {} then
      Sorted(SmallerFirst, Pick(items, wanted, true)) + Sorted(LargerFirst, Pick(items, wanted, false))
    else Sorted(LargerFirst, items)
  }

  lemma {:induction false} PickCount(items: seq<Item>, wanted: set<Text>, keep: bool, x: Item)
    ensures multiset(Pick(items, wanted, keep))[x] == if (x.path in wanted) == keep then multiset(items)[x] else 0
  {
    if items != [] {
      PickCount(items[..|items| - 1], wanted, keep, x);
      assert items == items[..|items| - 1] + [items[|items| - 1]];
    }
  }

  /** The selection has every item as often as it was offered. */
  lemma OrderedPermutes(items: seq<Item>, wanted: set<Text>, x: Item)
    ensures multiset(Ordered(items, wanted))[x] == multiset(items)[x]
  {
    if wanted != {} {
      PickCount(items, wanted, true, x);
      PickCount(items, wanted, false, x);
    }
  }

  lemma PickSame(a: seq<Item>, b: seq<Item>, wanted: set<Text>, keep: bool)
    requires multiset(a) == multiset(b)
    ensures multiset(Pick(a, wanted, keep)) == multiset(Pick(b, wanted, keep))
  {
    forall x
      ensures multiset(Pick(a, wanted, keep))[x] == multiset(Pick(b, wanted, keep))[x]
    {
      PickCount(a, wanted, keep, x);
      PickCount(b, wanted, keep, x);
    }
  }

  lemma PickDistinct(items: seq<Item>, wanted: set<Text>, keep: bool)
    requires Distinct(items)
    ensures Distinct(Pick(items, wanted, keep))
  {
    DistinctCounts(items);
    forall x
      ensures multiset(Pick(items, wanted, keep))[x] <= 1
    {
      PickCount(items, wanted, keep, x);
    }
    DistinctCounts(Pick(items, wanted, keep));
  }

  /** The selection order depends on which files there are, not on the order they were named in. */
  lemma OrderedForgets(a: seq<Item>, b: seq<Item>, wanted: set<Text>)
    requires multiset(a) == multiset(b) && Distinct(a)
    ensures Ordered(a, wanted) == Ordered(b, wanted)
  {
    DistinctCounts(a);
    DistinctCounts(b);
    var elems := set x | x in a;
    LargerFirstOrders(elems);
    if wanted == {} {
      SortForgetsOrder(LargerFirst, a, b, elems);
    } else {
      SmallerFirstOrders(elems);
      forall keep: bool
        ensures multiset(Pick(a, wanted, keep)) == multiset(Pick(b, wanted, keep))
        ensures Distinct(Pick(a, wanted, keep)) && Distinct(Pick(b, wanted, keep))
        ensures forall y :: y in Pick(a, wanted, keep) ==> y in elems
      {
        PickSame(a, b, wanted, keep);
        PickDistinct(a, wanted, keep);
        PickDistinct(b, wanted, keep);
        forall y | y in Pick(a, wanted, keep)
          ensures y in a
        {
          PickCount(a, wanted, keep, y);
        }
      }
      SortForgetsOrder(SmallerFirst, Pick(a, wanted, true), Pick(b, wanted, true), elems);
      SortForgetsOrder(LargerFirst, Pick(a, wanted, false), Pick(b, wanted, false), elems);
    }
  }

  // ------------------------------------------------------------ classification

  datatype Status = Added | Removed | Changed

  datatype Probed = Probed(size: nat, binary: bool)

  /** A loaded file: does it look binary after all, and its text as it goes into the prompt. */
  datatype Content = Content(binary: bool, text: Bytes)

  /** The repository at one source: what git says of a path, and what reading it yields. */
  datatype Source = Source(
    status: Text -> Status, probe: Text -> Option<Probed>, load: Text -> Option<Content>)

  datatype Policy = Policy(headroom: int, cap: Option<int>, largeAdded: bool, reserved: set<Text>)

  const ALREADY_IN_DIFF_MAX := 16384

  function Cap(pol: Policy): Option<int>
  {
    if pol.cap.Some? && pol.cap.value < 1 then None else pol.cap
  }

  /** Why a path is out before any headroom is spent; `None` is a candidate. */
  function Early(src: Source, pol: Policy, path: Text): (r: Option<Reason>)
    ensures r.None? ==> src.probe(path).Some? && !src.status(path).Removed? && !src.probe(path).value.binary
    ensures r != Some(OverHeadroom)
  {
    if src.status(path).Removed? then Some(Deleted)
    else
      match src.probe(path)
      case None => Some(Missing)
      case Some(p) =>
        if src.status(path).Added? && (!pol.largeAdded || p.size < ALREADY_IN_DIFF_MAX) then Some(AlreadyInDiff)
        else if p.binary then Some(Binary)
        else if Cap(pol).Some? && p.size > Cap(pol).value then Some(OverFileCap)
        else None
  }

  function Items(src: Source, pol: Policy, paths: seq<Text>): seq<Item>
  {
    if paths == [] then []
    else
      var p := paths[|paths| - 1];
      var front := Items(src, pol, paths[..|paths| - 1]);
      if Early(src, pol, p).None? then front + [Item(src.probe(p).value.size, p)] else front
  }

  function Refused(src: Source, pol: Policy, paths: seq<Text>): seq<Entry>
  {
    if paths == [] then []
    else
      var p := paths[|paths| - 1];
      var front := Refused(src, pol, paths[..|paths| - 1]);
      if Early(src, pol, p).Some? then front + [Entry(p, Early(src, pol, p).value)] else front
  }

  /** First occurrences, in the order given. */
  function Dedup(files: seq<Text>): (r: seq<Text>)
    ensures Distinct(r)
    ensures forall p :: p in r <==> p in files
  {
    if files == [] then []
    else
      var front := Dedup(files[..|files| - 1]);
      var p := files[|files| - 1];
      assert files == files[..|files| - 1] + [p];
      if p in front then front else front + [p]
  }

  function PathOf(e: Entry): Text { e.path }

  function ItemPath(x: Item): Text { x.path }

  function Names(omitted: seq<Entry>): seq<Text> { Mapped(PathOf, omitted) }

  function Paths(items: seq<Item>): seq<Text> { Mapped(ItemPath, items) }

  function NoRoom(x: Item): Entry { Entry(x.path, OverHeadroom) }

  // ------------------------------------------------------------- greedy filling

  const LF := 10

  /** Text in the prompt always ends its last line. */
  function Ended(text: Bytes): Bytes
  {
    if text != [] && text[|text| - 1] == LF then text else text + [LF]
  }

  function Section(src: Source, path: Text): Bytes
    requires src.load(path).Some?
  {
    BeginMarker(path) + Ended(src.load(path).value.text) + EndMarker()
  }

  function Overhead(path: Text): nat
  {
    |BeginMarker(path)| + |EndMarker()|
  }

  /** The pack while it is being built. */
  datatype Draft = Draft(sections: seq<Bytes>, included: seq<Text>, omitted: seq<Entry>)

  function Used(d: Draft): nat
  {
    |Flatten(d.sections)|
  }

  /** Why a candidate is left out when its turn comes; `None` takes it. */
  function Late(src: Source, headroom: int, used: nat, x: Item): (r: Option<Reason>)
    ensures r.None? ==> src.load(x.path).Some? && used + |Section(src, x.path)| <= headroom
  {
    if used + Overhead(x.path) + x.size + 1 > headroom then Some(OverHeadroom)
    else
      match src.load(x.path)
      case None => Some(Missing)
      case Some(c) =>
        if c.binary then Some(Binary)
        else if used + |Section(src, x.path)| > headroom then Some(OverHeadroom)
        else None
  }

  function Step(src: Source, headroom: int, d: Draft, x: Item): Draft
  {
    match Late(src, headroom, Used(d), x)
    case None => Draft(d.sections + [Section(src, x.path)], d.included + [x.path], d.omitted)
    case Some(r) => d.(omitted := d.omitted + [Entry(x.path, r)])
  }

  function Fill(src: Source, headroom: int, items: seq<Item>): Draft
  {
    if items == [] then Draft([], [], [])
    else Step(src, headroom, Fill(src, headroom, items[..|items| - 1]), items[|items| - 1])
  }

  /** With no headroom nothing is read at all. */
  function Filled(src: Source, pol: Policy, items: seq<Item>): Draft
  {
    if pol.headroom <= 0 then Draft([], [], Mapped(NoRoom, items))
    else Fill(src, pol.headroom, items)
  }

  // ------------------------------------------------------------------- trimming

  function Index(paths: seq<Text>, p: Text): nat
  {
    if paths == [] then 0 else if paths[0] == p then 0 else 1 + Index(paths[1..], p)
  }

  /** Entries in the order their paths were named. */
  predicate Earlier(paths: seq<Text>, a: Entry, b: Entry)
  {
    Index(paths, a.path) < Index(paths, b.path) || (Index(paths, a.path) == Index(paths, b.path) && Less(a.path, b.path))
  }

  function Listed(paths: seq<Text>, omitted: seq<Entry>): (r: seq<Entry>)
    ensures multiset(r) == multiset(omitted)
  {
    Sorted((a: Entry, b: Entry) => Earlier(paths, a, b), omitted)
  }

  /** Give up the last section, and say so. */
  function Drop(paths: seq<Text>, d: Draft): Draft
    requires |d.sections| == |d.included| > 0
  {
    var k := |d.sections| - 1;
    Draft(d.sections[..k], d.included[..k], Listed(paths, d.omitted + [Entry(d.included[k], OverHeadroom)]))
  }

  predicate TooLong(headroom: int, d: Draft)
  {
    d.sections != [] && Used(d) + |Header(d.omitted)| > headroom
  }

  /** The header grows as sections go, so it is rebuilt after each. */
  function Trim(paths: seq<Text>, headroom: int, d: Draft): Draft
    requires |d.sections| == |d.included|
    decreases |d.sections|
  {
    if TooLong(headroom, d) then Trim(paths, headroom, Drop(paths, d)) else d
  }

  /** The draft before trimming. */
  function Untrimmed(src: Source, pol: Policy, paths: seq<Text>): Draft
  {
    var d := Filled(src, pol, Ordered(Items(src, pol, paths), pol.reserved));
    d.(omitted := Listed(paths, Refused(src, pol, paths) + d.omitted))
  }

  /** The pack of a list of files, and its body. */
  function Packing(src: Source, pol: Policy, files: seq<Text>): Draft
  {
    var paths := Dedup(files);
    FilledShape(src, pol, Ordered(Items(src, pol, paths), pol.reserved));
    var all := Untrimmed(src, pol, paths);
    if all.omitted != [] && pol.headroom > 0 then Trim(paths, pol.headroom, all) else all
  }

  function Body(headroom: int, d: Draft): Bytes
  {
    if headroom <= 0 then []
    else
      var header := if d.omitted != [] && Used(d) + |Header(d.omitted)| <= headroom then Header(d.omitted) else [];
      header + Flatten(d.sections)
  }

  lemma {:induction false} FillShape(src: Source, headroom: int, items: seq<Item>)
    ensures var d := Fill(src, headroom, items);
            |d.sections| == |d.included| && (headroom >= 0 ==> Used(d) <= headroom)
  {
    if items != [] {
      FillShape(src, headroom, items[..|items| - 1]);
      StepFits(src, headroom, Fill(src, headroom, items[..|items| - 1]), items[|items| - 1]);
    }
  }

  lemma StepFits(src: Source, headroom: int, d: Draft, x: Item)
    requires |d.sections| == |d.included| && (headroom >= 0 ==> Used(d) <= headroom)
    ensures var d' := Step(src, headroom, d, x);
            |d'.sections| == |d'.included| && (headroom >= 0 ==> Used(d') <= headroom)
  {
    if Late(src, headroom, Used(d), x).None? {
      FlattenSnoc(d.sections, Section(src, x.path));
    }
  }

  lemma FilledShape(src: Source, pol: Policy, items: seq<Item>)
    ensures var d := Filled(src, pol, items);
            |d.sections| == |d.included| && (pol.headroom > 0 ==> Used(d) <= pol.headroom)
  {
    FillShape(src, pol.headroom, items);
  }

  // ---------------------------------------------------------------- the packer

  method Distinctly(files: seq<Text>) returns (paths: seq<Text>)
    ensures paths == Dedup(files)
  {
    paths := [];
    var seen: set<Text> := {};
    for i := 0 to |files|
      invariant paths == Dedup(files[..i]) && forall p :: p in seen <==> p in files[..i]
    {
      TakeSnoc(files, i);
      assert files[..i + 1][..i] == files[..i];
      if files[i] !in seen {
        seen := seen + {files[i]};
        paths := paths + [files[i]];
      }
    }
    assert files[..|files|] == files;
  }

  /** Reasons that do not depend on headroom come first; only sizes are collected. */
  method ClassifyAll(src: Source, pol: Policy, paths: seq<Text>) returns (packable: seq<Item>, early: seq<Entry>)
    ensures packable == Items(src, pol, paths) && early == Refused(src, pol, paths)
  {
    packable, early := [], [];
    for i := 0 to |paths|
      invariant packable == Items(src, pol, paths[..i]) && early == Refused(src, pol, paths[..i])
    {
      var path := paths[i];
      TakeSnoc(paths, i);
      assert paths[..i + 1][..i] == paths[..i];
      var st := src.status(path);
      if st.Removed? {
        early := early + [Entry(path, Deleted)];
        continue;
      }
      var probed := src.probe(path);
      if probed.None? {
        early := early + [Entry(path, Missing)];
        continue;
      }
      var size := probed.value.size;
      if st.Added? && (!pol.largeAdded || size < ALREADY_IN_DIFF_MAX) {
        early := early + [Entry(path, AlreadyInDiff)];
      } else if probed.value.binary {
        early := early + [Entry(path, Binary)];
      } else if Cap(pol).Some? && size > Cap(pol).value {
        early := early + [Entry(path, OverFileCap)];
      } else {
        packable := packable + [Item(size, path)];
      }
    }
    assert paths[..|paths|] == paths;
  }

  /** Take each candidate whole or not at all, in order, while it fits. */
  method FillGreedily(src: Source, headroom: int, packable: seq<Item>)
    returns (sections: seq<Bytes>, included: seq<Text>, omitted: seq<Entry>, used: nat)
    ensures Draft(sections, included, omitted) == Fill(src, headroom, packable) && used == |Flatten(sections)|
  {
    sections, included, omitted, used := [], [], [], 0;
    for i := 0 to |packable|
      invariant Draft(sections, included, omitted) == Fill(src, headroom, packable[..i])
      invariant used == |Flatten(sections)|
    {
      var path := packable[i].path;
      TakeSnoc(packable, i);
      assert packable[..i + 1][..i] == packable[..i];
      if used + Overhead(path) + packable[i].size + 1 > headroom {
        omitted := omitted + [Entry(path, OverHeadroom)];
        continue;
      }
      var data := src.load(path);
      if data.None? {
        omitted := omitted + [Entry(path, Missing)];
        continue;
      }
      if data.value.binary {
        omitted := omitted + [Entry(path, Binary)];
        continue;
      }
      var section := BeginMarker(path) + Ended(data.value.text) + EndMarker();
      if used + |section| > headroom {
        omitted := omitted + [Entry(path, OverHeadroom)];
        continue;
      }
      FlattenSnoc(sections, section);
      sections := sections + [section];
      used := used + |section|;
      included := included + [path];
    }
    assert packable[..|packable|] == packable;
  }

  lemma TrimStep(paths: seq<Text>, headroom: int, d: Draft)
    requires |d.sections| == |d.included| && TooLong(headroom, d)
    ensures Trim(paths, headroom, d) == Trim(paths, headroom, Drop(paths, d))
  {
  }

  lemma LastSection(sections: seq<Bytes>)
    requires sections != []
    ensures |Flatten(sections)| == |Flatten(sections[..|sections| - 1])| + |sections[|sections| - 1]|
  {
    var k := |sections| - 1;
    assert sections == sections[..k] + [sections[k]];
    FlattenSnoc(sections[..k], sections[k]);
  }

  /** Drop trailing sections until the growing header fits beside the rest. */
  method TrimToFit(paths: seq<Text>, headroom: int, d: Draft) returns (r: Draft, header: Bytes)
    requires |d.sections| == |d.included| && headroom > 0 && d.omitted != []
    ensures r == Trim(paths, headroom, d)
    ensures header == if Used(r) + |Header(r.omitted)| <= headroom then Header(r.omitted) else []
  {
    var sections, included, omitted, used := d.sections, d.included, d.omitted, Used(d);
    header := Header(omitted);
    while sections != [] && used + |header| > headroom
      invariant |sections| == |included| && used == |Flatten(sections)| && header == Header(omitted)
      invariant Trim(paths, headroom, d) == Trim(paths, headroom, Draft(sections, included, omitted))
      decreases |sections|
    {
      var k := |sections| - 1;
      TrimStep(paths, headroom, Draft(sections, included, omitted));
      LastSection(sections);
      used := used - |sections[k]|;
      omitted := Listed(paths, omitted + [Entry(included[k], OverHeadroom)]);
      sections, included := sections[..k], included[..k];
      header := Header(omitted);
    }
    r := Draft(sections, included, omitted);
    if used + |header| > headroom {
      header := [];
    }
  }

  /** The sections taken and every omission so far, in the order the paths were named. */
  method Take(src: Source, pol: Policy, paths: seq<Text>) returns (d: Draft)
    ensures d == Untrimmed(src, pol, paths) && |d.sections| == |d.included|
  {
    var packable, early := ClassifyAll(src, pol, paths);
    var ordered := Ordered(packable, pol.reserved);
    FilledShape(src, pol, ordered);
    var sections: seq<Bytes>, included: seq<Text>, late: seq<Entry> := [], [], [];
    if pol.headroom <= 0 {
      late := Mapped(NoRoom, ordered);
    } else {
      var used;
      sections, included, late, used := FillGreedily(src, pol.headroom, ordered);
    }
    d := Draft(sections, included, Listed(paths, early + late));
  }

  /** The header over the omissions, and the sections it leaves room for. */
  method Assemble(paths: seq<Text>, headroom: int, d: Draft) returns (r: Draft, body: Bytes)
    requires |d.sections| == |d.included|
    ensures r == if d.omitted != [] && headroom > 0 then Trim(paths, headroom, d) else d
    ensures body == Body(headroom, r)
  {
    r := d;
    var header: Bytes := [];
    if d.omitted != [] && headroom > 0 {
      TrimKeepsNote(paths, headroom, d);
      r, header := TrimToFit(paths, headroom, d);
    }
    body := if headroom > 0 then header + Flatten(r.sections) else [];
  }

  /** Pack full file contents into at most `headroom` bytes. */
  method Pack(src: Source, pol: Policy, files: seq<Text>) returns (d: Draft, body: Bytes)
    ensures d == Packing(src, pol, files) && body == Body(pol.headroom, d)
  {
    var paths := Distinctly(files);
    var u := Take(src, pol, paths);
    d, body := Assemble(paths, pol.headroom, u);
  }

  lemma {:induction false} TrimKeepsNote(paths: seq<Text>, headroom: int, d: Draft)
    requires |d.sections| == |d.included| && d.omitted != []
    ensures Trim(paths, headroom, d).omitted != []
    decreases |d.sections|
  {
    if TooLong(headroom, d) {
      var more := d.omitted + [Entry(d.included[|d.sections| - 1], OverHeadroom)];
      assert |multiset(Listed(paths, more))| == |multiset(more)| == |more|;
      TrimKeepsNote(paths, headroom, Drop(paths, d));
    }
  }
}
