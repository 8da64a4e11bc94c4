/** Which process a supersede may signal: the worker of exactly the retired record. */
module Signals {
  import opened Seqs

  const FLAG := "--record-id "

  predicate IsSpace(c: char)
  {
    c == ' ' || '\t' <= c <= '\r' || '\U{1C}' <= c <= '\U{1F}'
  }

  /** The value ends the line or is followed by white space. */
  predicate Ends(args: string, end: nat)
  {
    end == |args| || (end < |args| && IsSpace(args[end]))
  }

  ghost predicate Names(args: string, id: string)
  {
    exists at: nat :: Occurs(args, FLAG + id, at) && Ends(args, at + |FLAG + id|)
  }

  /** The first occurrence of a needle at or after `start`, or -1. */
  method Find(args: string, needle: string, start: nat) returns (at: int)
    ensures at == -1 ==> forall k: nat :: start <= k ==> !Occurs(args, needle, k)
    ensures at != -1 ==> at >= start && Occurs(args, needle, at) && forall k: nat :: start <= k < at ==> !Occurs(args, needle, k)
  {
    at := start;
    while at + |needle| <= |args|
      invariant start <= at
      invariant forall k: nat :: start <= k < at ==> !Occurs(args, needle, k)
      decreases |args| - at
    {
      if args[at..at + |needle|] == needle {
        return;
      }
      at := at + 1;
    }
    at := -1;
  }

  /** A process line names the record exactly when some occurrence of flag and value ends as a word. */
  method ArgvNamesRecord(args: string, id: string) returns (found: bool)
    ensures found <==> Names(args, id)
  {
    var needle := FLAG + id;
    var start := 0;
    while true
      invariant 0 <= start
      invariant forall k: nat :: k < start && Occurs(args, needle, k) ==> !Ends(args, k + |needle|)
      decreases |args| - start
    {
      var at := Find(args, needle, start);
      if at < 0 {
        return false;
      }
      var end := at + |needle|;
      if end == |args| || IsSpace(args[end]) {
        return true;
      }
      start := at + 1;
    }
  }

  predicate Word(id: string)
  {
    id != "" && forall k :: 0 <= k < |id| ==> !IsSpace(id[k])
  }

  /** The run of characters from here to the next white space. */
  function WordAt(args: string, p: nat): (w: string)
    requires p <= |args|
    ensures Occurs(args, w, p) && Ends(args, p + |w|)
    ensures forall k :: 0 <= k < |w| ==> !IsSpace(w[k])
    decreases |args| - p
  {
    if p == |args| || IsSpace(args[p]) then ""
    else
      var rest := WordAt(args, p + 1);
      assert args[p..p + 1 + |rest|] == [args[p]] + args[p + 1..p + 1 + |rest|];
      [args[p]] + rest
  }

  /** The flag stands at `at`, followed by this word. */
  ghost predicate FlagWord(args: string, at: nat, id: string)
  {
    Occurs(args, FLAG, at) && WordAt(args, at + |FLAG|) == id
  }

  /** The records a line names are exactly the words behind its flags, however often the flag appears. */
  lemma NamesExactly(args: string, id: string)
    requires Word(id)
    ensures Names(args, id) <==> exists at: nat :: FlagWord(args, at, id)
  {
    if Names(args, id) {
      NamedByFlag(args, id);
    }
    if at: nat :| FlagWord(args, at, id) {
      FlagNames(args, at, id);
    }
  }

  lemma NamedByFlag(args: string, id: string)
    requires Word(id) && Names(args, id)
    ensures exists at: nat :: FlagWord(args, at, id)
  {
    var at: nat :| Occurs(args, FLAG + id, at) && Ends(args, at + |FLAG + id|);
    FlagAndValue(args, id, at);
    SameWord(args, at + |FLAG|, id, WordAt(args, at + |FLAG|));
    assert FlagWord(args, at, id);
  }

  lemma FlagNames(args: string, at: nat, id: string)
    requires FlagWord(args, at, id)
    ensures Names(args, id)
  {
    assert args[at..at + |FLAG + id|] == args[at..at + |FLAG|] + args[at + |FLAG|..at + |FLAG| + |id|];
    assert Occurs(args, FLAG + id, at);
  }

  /**
   * A worker's line names its own record, and another one exactly when some other place in the line, such
   * as the repository's path, spells the flag in front of that id.
   */
  lemma NamesOnlyItself(before: string, id: string, after: string, other: string)
    requires Word(id) && Word(other) && (after == "" || IsSpace(after[0]))
    ensures var args := before + FLAG + id + after;
            Names(args, other) <==> other == id || exists at: nat :: at != |before| && FlagWord(args, at, other)
  {
    var args := before + FLAG + id + after;
    OwnLine(before, id, after);
    SameWord(args, |before| + |FLAG|, id, WordAt(args, |before| + |FLAG|));
    FlagAndValue(args, id, |before|);
    NamesExactly(args, other);
  }

  lemma FlagAndValue(args: string, id: string, at: nat)
    requires Occurs(args, FLAG + id, at)
    ensures Occurs(args, FLAG, at) && Occurs(args, id, at + |FLAG|)
  {
    var both := args[at..at + |FLAG + id|];
    assert args[at..at + |FLAG|] == both[..|FLAG|];
    assert args[at + |FLAG|..at + |FLAG| + |id|] == both[|FLAG|..];
  }

  lemma OwnLine(before: string, id: string, after: string)
    requires after == "" || IsSpace(after[0])
    ensures var args := before + FLAG + id + after;
            Occurs(args, FLAG + id, |before|) && Ends(args, |before| + |FLAG + id|)
            && Occurs(args, id, |before| + |FLAG|) && Names(args, id)
  {
    var args := before + FLAG + id + after;
    assert args == before + (FLAG + id) + after;
    assert Occurs(args, FLAG + id, |before|);
    FlagAndValue(args, id, |before|);
  }

  lemma SameWord(args: string, p: nat, a: string, b: string)
    requires Word(a) && forall k :: 0 <= k < |b| ==> !IsSpace(b[k])
    requires Occurs(args, a, p) && Ends(args, p + |a|)
    requires Occurs(args, b, p) && Ends(args, p + |b|)
    ensures a == b
  {
    if |a| < |b| {
      NoSpaceInside(args, p, b, |a|);
    } else if |b| < |a| {
      NoSpaceInside(args, p, a, |b|);
    }
  }

  lemma NoSpaceInside(args: string, p: nat, w: string, k: nat)
    requires Occurs(args, w, p) && k < |w| && forall i :: 0 <= i < |w| ==> !IsSpace(w[i])
    ensures p + k < |args| && !IsSpace(args[p + k])
  {
    assert args[p + k] == args[p..p + |w|][k];
  }

  // -------------------------------------------------------------- the signals

  datatype Pid = NoPid | Pid(value: nat)

  /** A row the reservation retired, and the argv line its pid shows now, if it can be read. */
  datatype Peer = Peer(id: string, pid: Pid, line: seq<string>, gone: bool)

  /** Demonstrably still the worker of this row. */
  ghost predicate Confirmed(p: Peer)
  {
    && p.pid.Pid? && p.pid.value > 0 && p.id != ""
    && |p.line| == 1 && Contains(p.line[0], "skodun") && Contains(p.line[0], "worker") && Names(p.line[0], p.id)
  }

  method IsWorkerOf(p: Peer) returns (yes: bool)
    ensures yes <==> Confirmed(p)
  {
    if p.pid.NoPid? || p.pid.value == 0 || p.id == "" || |p.line| != 1 {
      return false;
    }
    if !Contains(p.line[0], "skodun") || !Contains(p.line[0], "worker") {
      return false;
    }
    yes := ArgvNamesRecord(p.line[0], p.id);
  }

  /** Indices of the rows whose workers were signalled: exactly the confirmed ones still there, in order. */
  method SignalSuperseded(retired: seq<Peer>) returns (sent: seq<nat>)
    ensures forall k :: 0 <= k < |retired| ==> (k in sent <==> Confirmed(retired[k]) && !retired[k].gone)
    ensures forall i, j :: 0 <= i < j < |sent| ==> sent[i] < sent[j]
  {
    sent := [];
    for k := 0 to |retired|
      invariant forall i :: 0 <= i < k ==> (i in sent <==> Confirmed(retired[i]) && !retired[i].gone)
      invariant forall i, j :: 0 <= i < j < |sent| ==> sent[i] < sent[j]
      invariant forall i :: 0 <= i < |sent| ==> sent[i] < k
    {
      var yes := IsWorkerOf(retired[k]);
      if yes && !retired[k].gone {
        sent := sent + [k];
      }
    }
  }
}
