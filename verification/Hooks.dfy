/** The pre-push hook installer: what it may replace, and what it must never lose. */
module Hooks {
  import opened Seqs
  import opened ShellWords
  import opened Ticks

  const MARKER := "SKODUN-PREPUSH-SHIM v1"
  const CHAIN := "SKODUN_SHIM_CHAIN="
  const SHEBANG := "#!/bin/sh"
  const MARKED_LINE := "# SKODUN-PREPUSH-SHIM v1"
  const NEWLINE := '\n'
  const RETURN := '\r'

  // ---------------------------------------------------------------- the text

  /** The shim: a marked header, the quoted chain target on its own line, then the dispatcher. */
  function ShimText(chain: string, python: string): string
  {
    SHEBANG + [NEWLINE] + (MARKED_LINE + [NEWLINE] + (CHAIN + (Quoted(chain) + [NEWLINE] + Body(python))))
  }

  function Body(python: string): string
  {
    ": \"${SKODUN_SHIM_PY:=" + python + "}\"\n"
  }

  /** Text reading turns every line ending into a newline. */
  function Universal(s: string): string
    decreases |s|
  {
    if s == "" then ""
    else if s[0] == RETURN then
      [NEWLINE] + Universal(if |s| >= 2 && s[1] == NEWLINE then s[2..] else s[1..])
    else [s[0]] + Universal(s[1..])
  }

  function LineOf(text: string): string
  {
    text[..Seek(text, NEWLINE, 0)]
  }

  /** The value on the first line that starts with the chain key. */
  function ChainValue(text: string): Option<string>
    decreases |text|
  {
    if CHAIN <= text then Some(LineOf(text[|CHAIN|..]))
    else
      var end := Seek(text, NEWLINE, 0);
      if end == |text| then None else ChainValue(text[end + 1..])
  }

  predicate OneLine(s: string)
  {
    NEWLINE !in s && RETURN !in s
  }

  lemma {:induction false} UniversalPlain(a: string, b: string)
    requires RETURN !in a
    ensures Universal(a + b) == a + Universal(b)
  {
    if a == "" {
      assert a + b == b;
    } else {
      assert (a + b)[1..] == a[1..] + b;
      UniversalPlain(a[1..], b);
    }
  }

  lemma {:induction false} UniversalHasNoReturn(s: string)
    ensures RETURN !in Universal(s)
    decreases |s|
  {
    if s != "" {
      UniversalHasNoReturn(if s[0] == RETURN && |s| >= 2 && s[1] == NEWLINE then s[2..] else s[1..]);
    }
  }

  lemma SkipLine(line: string, rest: string)
    requires NEWLINE !in line && !(CHAIN <= line)
    ensures ChainValue(line + [NEWLINE] + rest) == ChainValue(rest)
  {
    var text := line + [NEWLINE] + rest;
    SeekUnique(text, NEWLINE, 0, |line|);
    assert text[|line| + 1..] == rest;
    if CHAIN <= text {
      WithinLine(CHAIN, line, rest);
    }
  }

  lemma WithinLine(p: string, line: string, rest: string)
    requires NEWLINE !in p && p <= line + [NEWLINE] + rest
    ensures p <= line
  {
    var text := line + [NEWLINE] + rest;
    assert text[|line|] == NEWLINE && text[..|line|] == line;
    assert forall k :: 0 <= k < |p| ==> p[k] == text[k];
  }

  lemma {:induction false} EscapedAppend(a: string, b: string)
    ensures Escaped(a + b) == Escaped(a) + Escaped(b)
  {
    if a == "" {
      assert a + b == b;
    } else {
      assert (a + b)[1..] == a[1..] + b;
      EscapedAppend(a[1..], b);
    }
  }

  lemma {:induction false} EscapedPlain(s: string, c: char)
    requires c !in s && c != QUOTE && c != BACKSLASH
    ensures c !in Escaped(s)
  {
    if s != "" {
      EscapedPlain(s[1..], c);
    }
  }

  /** Reading back a shim whose chain line begins with these characters and then breaks. */
  lemma ChainLineIs(value: string, rest: string)
    requires OneLine(value) && rest != "" && (rest[0] == NEWLINE || rest[0] == RETURN)
    ensures ChainValue(Universal(SHEBANG + [NEWLINE] + (MARKED_LINE + [NEWLINE] + (CHAIN + (value + rest))))) == Some(value)
  {
    HeaderPlain();
    UniversalLayers(SHEBANG + [NEWLINE], MARKED_LINE + [NEWLINE], CHAIN, value, rest);
    SkipHeader(CHAIN + (value + Universal(rest)));
    ValueHere(value, Universal(rest));
  }

  lemma HeaderPlain()
    ensures RETURN !in SHEBANG + [NEWLINE] && RETURN !in MARKED_LINE + [NEWLINE] && RETURN !in CHAIN
  {
  }

  lemma SkipHeader(rest: string)
    ensures ChainValue(SHEBANG + [NEWLINE] + (MARKED_LINE + [NEWLINE] + rest)) == ChainValue(rest)
  {
    HeaderLines();
    SkipTwo(SHEBANG, MARKED_LINE, rest);
  }

  lemma HeaderLines()
    ensures NEWLINE !in SHEBANG && !(CHAIN <= SHEBANG) && NEWLINE !in MARKED_LINE && !(CHAIN <= MARKED_LINE)
  {
    assert CHAIN[0] != SHEBANG[0] && CHAIN[0] != MARKED_LINE[0];
  }

  lemma SkipTwo(a: string, b: string, rest: string)
    requires NEWLINE !in a && !(CHAIN <= a) && NEWLINE !in b && !(CHAIN <= b)
    ensures ChainValue(a + [NEWLINE] + (b + [NEWLINE] + rest)) == ChainValue(rest)
  {
    SkipLine(a, b + [NEWLINE] + rest);
    SkipLine(b, rest);
  }

  lemma UniversalLayers(a: string, b: string, c: string, value: string, rest: string)
    requires RETURN !in a && RETURN !in b && RETURN !in c && RETURN !in value
    ensures Universal(a + (b + (c + (value + rest)))) == a + (b + (c + (value + Universal(rest))))
  {
    UniversalPlain(value, rest);
    UniversalPlain(c, value + rest);
    UniversalPlain(b, c + (value + rest));
    UniversalPlain(a, b + (c + (value + rest)));
  }

  lemma ValueHere(value: string, broken: string)
    requires NEWLINE !in value && broken != "" && broken[0] == NEWLINE
    ensures ChainValue(CHAIN + (value + broken)) == Some(value)
  {
    assert (CHAIN + (value + broken))[|CHAIN|..] == value + broken;
    SeekUnique(value + broken, NEWLINE, 0, |value|);
    assert (value + broken)[..|value|] == value;
  }

  /** Where the first line break of a string is. */
  function Break(s: string): (p: nat)
    ensures p <= |s| && OneLine(s[..p])
    ensures p < |s| ==> s[p] == NEWLINE || s[p] == RETURN
    ensures p == |s| <==> OneLine(s)
  {
    if s == "" then 0
    else if s[0] == NEWLINE || s[0] == RETURN then 0
    else
      var p := Break(s[1..]);
      assert s[..p + 1] == [s[0]] + s[1..][..p];
      assert s == [s[0]] + s[1..];
      p + 1
  }

  /** The chain target a shim on disk gives back: absent line, an unreadable value, or the target. */
  datatype Recorded = NoLine | Unreadable | Target(chain: string)

  function ChainOf(text: string): Recorded
  {
    match ChainValue(text)
    case None => NoLine
    case Some(value) =>
      match ShellWord(value)
      case None => Unreadable
      case Some(chain) => Target(chain)
  }

  lemma OneLineRecovered(chain: string, python: string)
    requires OneLine(chain)
    ensures ChainOf(Universal(ShimText(chain, python))) == Target(chain)
  {
    EscapedPlain(chain, NEWLINE);
    EscapedPlain(chain, RETURN);
    assert OneLine(Quoted(chain));
    ChainLineIs(Quoted(chain), [NEWLINE] + Body(python));
    assert Quoted(chain) + ([NEWLINE] + Body(python)) == Quoted(chain) + [NEWLINE] + Body(python);
    UnquoteQuoted(chain);
  }

  lemma CutApart(head: string, tail: string, body: string)
    ensures Quoted(head + tail) + [NEWLINE] + body == [QUOTE] + Escaped(head) + (Escaped(tail) + [QUOTE] + [NEWLINE] + body)
  {
    EscapedAppend(head, tail);
  }

  lemma BrokenRefused(head: string, tail: string, python: string)
    requires OneLine(head) && tail != "" && (tail[0] == NEWLINE || tail[0] == RETURN)
    ensures ChainOf(Universal(ShimText(head + tail, python))) == Unreadable
  {
    EscapedPlain(head, NEWLINE);
    EscapedPlain(head, RETURN);
    var value := [QUOTE] + Escaped(head);
    assert OneLine(value);
    CutApart(head, tail, Body(python));
    ChainLineIs(value, Escaped(tail) + [QUOTE] + [NEWLINE] + Body(python));
    CutRunRefused("", head);
    assert [QUOTE] + "" + Escaped(head) == value;
  }

  /** A target on one line is recovered from the installed shim exactly; any other is recognised as unreadable. */
  lemma RecoveredExactly(chain: string, python: string)
    ensures ChainOf(Universal(ShimText(chain, python))) == if OneLine(chain) then Target(chain) else Unreadable
  {
    var p := Break(chain);
    if OneLine(chain) {
      OneLineRecovered(chain, python);
    } else {
      BrokenRefused(chain[..p], chain[p..], python);
      assert chain == chain[..p] + chain[p..];
    }
  }

  /** Whatever a shim on disk records fits one line, so writing it again records the same. */
  lemma RecordedOnOneLine(text: string)
    requires RETURN !in text && ChainOf(text).Target?
    ensures OneLine(ChainOf(text).chain)
  {
    ValueOnOneLine(text);
    WordChars(ChainValue(text).value, NEWLINE);
    WordChars(ChainValue(text).value, RETURN);
  }

  lemma {:induction false} ValueOnOneLine(text: string)
    requires RETURN !in text && ChainValue(text).Some?
    ensures OneLine(ChainValue(text).value)
    decreases |text|
  {
    if !(CHAIN <= text) {
      ValueOnOneLine(text[Seek(text, NEWLINE, 0) + 1..]);
    }
  }

  lemma {:induction false} WordChars(text: string, c: char)
    requires c !in text && c != QUOTE && ShellWord(text).Some?
    ensures c !in ShellWord(text).value
    decreases |text|
  {
    if text != "" {
      if text[0] == QUOTE {
        WordChars(text[Seek(text, QUOTE, 1) + 1..], c);
      } else {
        WordChars(text[2..], c);
      }
    }
  }

  // ------------------------------------------------------------ the installer

  /** A file's text, and whether this process may read it. */
  datatype File = File(text: string, readable: bool)

  /** What reading yields; an unreadable file looks empty, so that it is never taken for our own. */
  function Read(f: File): string
  {
    if f.readable then Universal(f.text) else ""
  }

  predicate Ours(f: File)
  {
    Contains(Read(f), MARKER)
  }

  /** The two files beside each other in the resolved hooks directory. */
  datatype Dir = Dir(hook: Option<File>, backup: Option<File>)

  datatype Outcome = Installed | Reinstalled | Chained | RefusedChain | RefusedForeign | RefusedBackup

  predicate Refused(o: Outcome)
  {
    o.RefusedChain? || o.RefusedForeign? || o.RefusedBackup?
  }

  /** When each refusal is owed. */
  function Refusal(d: Dir, force: bool): Option<Outcome>
  {
    if d.hook.None? then None
    else if Ours(d.hook.value) then if ChainOf(Read(d.hook.value)).Unreadable? then Some(RefusedChain) else None
    else if !force then Some(RefusedForeign)
    else if d.backup.Some? && Read(d.backup.value) != Read(d.hook.value) then Some(RefusedBackup)
    else None
  }

  /** The directory after one install. */
  function After(d: Dir, path: string, force: bool, python: string): Dir
  {
    if Refusal(d, force).Some? then d
    else if d.hook.None? then d.(hook := Some(File(ShimText("", python), true)))
    else if Ours(d.hook.value) then
      var chain := match ChainOf(Read(d.hook.value)) case Target(c) => c case _ => "";
      d.(hook := Some(File(ShimText(chain, python), true)))
    else Dir(Some(File(ShimText(path, python), true)), d.hook)
  }

  class HookDir {
    const backupPath: string
    var hook: Option<File>
    var backup: Option<File>

    constructor (backupPath: string, hook: Option<File>, backup: Option<File>)
      ensures this.backupPath == backupPath && this.hook == hook && this.backup == backup
    {
      this.backupPath, this.hook, this.backup := backupPath, hook, backup;
    }

    function Contents(): Dir
      reads this
    {
      Dir(hook, backup)
    }

    method WriteShim(chain: string, python: string)
      modifies this`hook
      ensures hook == Some(File(ShimText(chain, python), true))
    {
      hook := Some(File(ShimText(chain, python), true));
    }

    /** A refusal changes nothing; otherwise the hook is a fresh shim that chains what it must. */
    method InstallHooks(force: bool, python: string) returns (outcome: Outcome)
      modifies this
      ensures Contents() == After(old(Contents()), backupPath, force, python)
      ensures Refused(outcome) <==> Refusal(old(Contents()), force).Some?
      ensures Refused(outcome) ==> Some(outcome) == Refusal(old(Contents()), force)
    {
      if hook.None? {
        WriteShim("", python);
        return Installed;
      }
      var existing := Read(hook.value);
      if Contains(existing, MARKER) {
        var chain := "";
        var value := ChainValue(existing);
        if value.Some? {
          var word := Unquote(value.value);
          if word.None? {
            return RefusedChain;
          }
          chain := word.value;
        }
        WriteShim(chain, python);
        return Reinstalled;
      }
      if !force {
        return RefusedForeign;
      }
      if backup.Some? && Read(backup.value) != existing {
        return RefusedBackup;
      }
      backup := hook;
      WriteShim(backupPath, python);
      outcome := Chained;
    }
  }

  // ------------------------------------------------------- what is never lost

  /** A readable foreign hook with this text is in place or kept beside. */
  predicate Holds(f: Option<File>, text: string)
  {
    f.Some? && f.value.readable && Read(f.value) == text && !Ours(f.value)
  }

  predicate Held(d: Dir, text: string)
  {
    Holds(d.hook, text) || Holds(d.backup, text)
  }

  /** No install loses a non-empty, readable, unmarked hook text. */
  lemma InstallKeeps(d: Dir, path: string, force: bool, python: string, text: string)
    requires Held(d, text) && text != ""
    ensures Held(After(d, path, force, python), text)
    ensures Holds(d.backup, text) ==> Holds(After(d, path, force, python).backup, text)
  {
  }

  lemma HeaderSurvives(rest: string)
    ensures Universal(SHEBANG + [NEWLINE] + (MARKED_LINE + [NEWLINE] + rest))
            == SHEBANG + [NEWLINE] + (MARKED_LINE + [NEWLINE] + Universal(rest))
  {
    UniversalPlain(MARKED_LINE + [NEWLINE], rest);
    UniversalPlain(SHEBANG + [NEWLINE], MARKED_LINE + [NEWLINE] + rest);
  }

  lemma MarkedLine()
    ensures MARKED_LINE == "# " + MARKER
  {
  }

  lemma ShimIsOurs(chain: string, python: string)
    ensures Ours(File(ShimText(chain, python), true))
  {
    var rest := CHAIN + (Quoted(chain) + [NEWLINE] + Body(python));
    HeaderSurvives(rest);
    MarkedLine();
    Inside(SHEBANG + [NEWLINE], "# ", MARKER, [NEWLINE], Universal(rest));
  }

  lemma Inside(a: string, p: string, m: string, n: string, y: string)
    ensures Contains(a + (p + m + n + y), m)
  {
    var text := a + (p + m + n + y);
    assert text == (a + p) + m + (n + y);
    assert Occurs(text, m, |a + p|);
  }

  /** The target the installed shim records, if the hook is a readable shim. */
  function Recording(d: Dir): Recorded
  {
    if d.hook.Some? && Ours(d.hook.value) then ChainOf(Read(d.hook.value)) else NoLine
  }

  /** No install drops or changes a recorded chain; one it cannot read makes it refuse. */
  lemma InstallKeepsChain(d: Dir, path: string, force: bool, python: string)
    requires !Recording(d).NoLine?
    ensures Recording(After(d, path, force, python)) == Recording(d)
  {
    var text := Read(d.hook.value);
    if ChainOf(text).Target? {
      UniversalHasNoReturn(d.hook.value.text);
      RecordedOnOneLine(text);
      RecoveredExactly(ChainOf(text).chain, python);
      ShimIsOurs(ChainOf(text).chain, python);
    }
  }

  /** A forced install over a foreign hook keeps it and records where. */
  lemma ForcedInstallChains(d: Dir, path: string, python: string)
    requires d.hook.Some? && !Ours(d.hook.value) && Refusal(d, true).None?
    ensures After(d, path, true, python).backup == d.hook
    ensures Recording(After(d, path, true, python)) == if OneLine(path) then Target(path) else Unreadable
  {
    RecoveredExactly(path, python);
    ShimIsOurs(path, python);
  }

  /** Installs, and third parties writing whatever they like over the hook. */
  datatype Op = Install(force: bool, python: string) | Write(file: Option<File>)

  function Run(d: Dir, path: string, ops: seq<Op>): Dir
  {
    if ops == [] then d
    else
      var before := Run(d, path, ops[..|ops| - 1]);
      match ops[|ops| - 1]
      case Install(force, python) => After(before, path, force, python)
      case Write(file) => before.(hook := file)
  }

  /** Once backed up, a text stays backed up through any sequence of installs and third-party writes. */
  lemma {:induction false} BackupIsForever(d: Dir, path: string, ops: seq<Op>, text: string)
    requires Holds(d.backup, text) && text != ""
    ensures Holds(Run(d, path, ops).backup, text)
  {
    if ops != [] {
      var front := ops[..|ops| - 1];
      BackupIsForever(d, path, front, text);
      var op := ops[|ops| - 1];
      if op.Install? {
        InstallKeeps(Run(d, path, front), path, op.force, op.python, text);
      }
    }
  }

  /** Every hook text a forced install moved aside is there for good. */
  lemma {:induction false} MovedAsideForever(d: Dir, path: string, python: string, ops: seq<Op>, text: string)
    requires Holds(d.hook, text) && text != "" && Refusal(d, true).None?
    ensures Holds(Run(After(d, path, true, python), path, ops).backup, text)
  {
    BackupIsForever(After(d, path, true, python), path, ops, text);
  }

  /** Byte for byte, a backup is lost exactly when a forced install moves aside a foreign hook that only reads the same. */
  lemma BackupLostExactly(d: Dir, path: string, force: bool, python: string)
    requires d.backup.Some?
    ensures After(d, path, force, python).backup != d.backup <==>
            force && d.hook.Some? && !Ours(d.hook.value) && Read(d.hook.value) == Read(d.backup.value) && d.hook != d.backup
  {
  }

  /** An unreadable backup reads as empty: a forced install over an empty hook replaces it. */
  lemma UnreadableBackupIsLost()
    ensures var kept := File("exit 1", false);
            var d := Dir(Some(File("", true)), Some(kept));
            Refusal(d, true).None? && After(d, "p", true, "py").backup == Some(File("", true))
  {
  }
}
