/** Single-quoted shell words, and the chain line the pre-push shim keeps one in. */
module ShellWords {
  import opened Ticks

  const QUOTE := '\''
  const BACKSLASH := '\\'

  // ------------------------------------------------------------------ quoting

  /** Each quote closes the run, stands escaped, and reopens it. */
  function Escaped(s: string): string
  {
    if s == "" then ""
    else (if s[0] == QUOTE then [QUOTE, BACKSLASH, QUOTE, QUOTE] else [s[0]]) + Escaped(s[1..])
  }

  function Quoted(s: string): string
  {
    [QUOTE] + Escaped(s) + [QUOTE]
  }

  /** The first position at or after `i` that holds `c`, or the end. */
  function Seek(text: string, c: char, i: nat): (at: nat)
    requires i <= |text|
    ensures i <= at <= |text|
    ensures at < |text| ==> text[at] == c
    ensures forall k :: i <= k < at ==> text[k] != c
    decreases |text| - i
  {
    if i == |text| || text[i] == c then i else Seek(text, c, i + 1)
  }

  function Prepend(s: string, rest: Option<string>): Option<string>
  {
    if rest.None? then None else Some(s + rest.value)
  }

  /**
   * The word a shell reads from single-quoted runs (every character literal up to the next quote)
   * and escaped quotes outside them; anything else is not a word of this form.
   */
  function ShellWord(text: string): Option<string>
    decreases |text|
  {
    if text == "" then Some("")
    else if text[0] == QUOTE then
      var end := Seek(text, QUOTE, 1);
      if end == |text| then None else Prepend(text[1..end], ShellWord(text[end + 1..]))
    else if |text| >= 2 && text[0] == BACKSLASH && text[1] == QUOTE then
      Prepend([QUOTE], ShellWord(text[2..]))
    else None
  }

  /** The unquoting loop reads exactly the shell's word, or refuses exactly when there is none. */
  method Unquote(text: string) returns (word: Option<string>)
    ensures word == ShellWord(text)
  {
    var out := "";
    var i, n := 0, |text|;
    assert text[0..] == text;
    Whole(ShellWord(text));
    while i < n
      invariant 0 <= i <= n == |text|
      invariant ShellWord(text) == Prepend(out, ShellWord(text[i..]))
      decreases n - i
    {
      if text[i] == QUOTE {
        var end := Seek(text, QUOTE, i + 1);
        RunAt(text, i, out);
        if end == n {
          return None;
        }
        out := out + text[i + 1..end];
        i := end + 1;
      } else if i + 2 <= n && text[i] == BACKSLASH && text[i + 1] == QUOTE {
        EscapeAt(text, i, out);
        out := out + [QUOTE];
        i := i + 2;
      } else {
        NeitherAt(text, i);
        return None;
      }
    }
    assert text[n..] == "" && out + "" == out;
    word := Some(out);
  }

  lemma RunAt(text: string, i: nat, out: string)
    requires i < |text| && text[i] == QUOTE
    ensures var end := Seek(text, QUOTE, i + 1);
            Prepend(out, ShellWord(text[i..])) ==
            if end == |text| then None else Prepend(out + text[i + 1..end], ShellWord(text[end + 1..]))
  {
    var end := Seek(text, QUOTE, i + 1);
    SeekShifted(text, i);
    if end < |text| {
      assert text[i..][1..end - i] == text[i + 1..end] && text[i..][end - i + 1..] == text[end + 1..];
      Regroup(out, text[i + 1..end], ShellWord(text[end + 1..]));
    }
  }

  lemma EscapeAt(text: string, i: nat, out: string)
    requires i + 2 <= |text| && text[i] == BACKSLASH && text[i + 1] == QUOTE
    ensures Prepend(out, ShellWord(text[i..])) == Prepend(out + [QUOTE], ShellWord(text[i + 2..]))
  {
    assert text[i..][2..] == text[i + 2..];
    Regroup(out, [QUOTE], ShellWord(text[i + 2..]));
  }

  lemma NeitherAt(text: string, i: nat)
    requires i < |text| && text[i] != QUOTE && !(i + 2 <= |text| && text[i] == BACKSLASH && text[i + 1] == QUOTE)
    ensures ShellWord(text[i..]) == None
  {
  }

  lemma Whole(word: Option<string>)
    ensures Prepend("", word) == word
  {
    if word.Some? {
      assert "" + word.value == word.value;
    }
  }

  lemma Regroup(a: string, b: string, rest: Option<string>)
    ensures Prepend(a, Prepend(b, rest)) == Prepend(a + b, rest)
  {
    if rest.Some? {
      assert a + (b + rest.value) == (a + b) + rest.value;
    }
  }

  lemma {:induction false} SeekUnique(text: string, c: char, i: nat, at: nat)
    requires i <= at <= |text| && (at < |text| ==> text[at] == c)
    requires forall k :: i <= k < at ==> text[k] != c
    ensures Seek(text, c, i) == at
    decreases at - i
  {
    if i < at {
      SeekUnique(text, c, i + 1, at);
    }
  }

  lemma SeekShifted(text: string, i: nat)
    requires i < |text|
    ensures Seek(text[i..], QUOTE, 1) == Seek(text, QUOTE, i + 1) - i
  {
    SeekUnique(text[i..], QUOTE, 1, Seek(text, QUOTE, i + 1) - i);
  }

  /** One complete run, then the rest of the word. */
  lemma ReadRun(done: string, rest: string)
    requires forall k :: 0 <= k < |done| ==> done[k] != QUOTE
    ensures ShellWord([QUOTE] + done + [QUOTE] + rest) == Prepend(done, ShellWord(rest))
  {
    var text := [QUOTE] + done + [QUOTE] + rest;
    SeekUnique(text, QUOTE, 1, 1 + |done|);
    assert text[1..1 + |done|] == done && text[|done| + 2..] == rest;
  }

  /** A run that is never closed. */
  lemma ReadOpen(done: string)
    requires forall k :: 0 <= k < |done| ==> done[k] != QUOTE
    ensures ShellWord([QUOTE] + done) == None
  {
    SeekUnique([QUOTE] + done, QUOTE, 1, 1 + |done|);
  }

  lemma ReadEscape(rest: string)
    ensures ShellWord([BACKSLASH, QUOTE] + rest) == Prepend([QUOTE], ShellWord(rest))
  {
    assert ([BACKSLASH, QUOTE] + rest)[2..] == rest;
  }

  lemma QuotePart(done: string, e: string, end: string)
    ensures [QUOTE] + done + ([QUOTE, BACKSLASH, QUOTE, QUOTE] + e) + end
            == [QUOTE] + done + [QUOTE] + ([BACKSLASH, QUOTE] + ([QUOTE] + "" + e + end))
  {
    assert [QUOTE, BACKSLASH, QUOTE, QUOTE] + e == [QUOTE] + ([BACKSLASH, QUOTE] + ([QUOTE] + "" + e));
  }

  lemma PlainPart(done: string, c: char, e: string, end: string)
    ensures [QUOTE] + done + ([c] + e) + end == [QUOTE] + (done + [c]) + e + end
  {
    assert done + ([c] + e) == (done + [c]) + e;
  }

  lemma HeadTail(done: string, s: string)
    requires s != ""
    ensures done + [s[0]] + s[1..] == done + s && [s[0]] + s[1..] == s
  {
  }

  /** Inside an open run: the rest of a quoted string closes it and the word is complete. */
  lemma {:induction false} RunCloses(done: string, s: string)
    requires forall k :: 0 <= k < |done| ==> done[k] != QUOTE
    ensures ShellWord([QUOTE] + done + Escaped(s) + [QUOTE]) == Some(done + s)
    decreases |s|
  {
    if s == "" {
      assert [QUOTE] + done + Escaped(s) + [QUOTE] == [QUOTE] + done + [QUOTE] + "";
      ReadRun(done, "");
      assert done + "" == done;
    } else {
      HeadTail(done, s);
      if s[0] == QUOTE {
        var reopened := [QUOTE] + "" + Escaped(s[1..]) + [QUOTE];
        QuotePart(done, Escaped(s[1..]), [QUOTE]);
        ReadRun(done, [BACKSLASH, QUOTE] + reopened);
        ReadEscape(reopened);
        RunCloses("", s[1..]);
        assert "" + s[1..] == s[1..];
      } else {
        PlainPart(done, s[0], Escaped(s[1..]), [QUOTE]);
        RunCloses(done + [s[0]], s[1..]);
      }
    }
  }

  /** Unquoting what was quoted gives every string back. */
  lemma UnquoteQuoted(s: string)
    ensures ShellWord(Quoted(s)) == Some(s)
  {
    RunCloses("", s);
    assert [QUOTE] + "" + Escaped(s) + [QUOTE] == Quoted(s);
    assert "" + s == s;
  }

  /** A quoted string cut before its closing quote is never read as a word. */
  lemma {:induction false} CutRunRefused(done: string, s: string)
    requires forall k :: 0 <= k < |done| ==> done[k] != QUOTE
    ensures ShellWord([QUOTE] + done + Escaped(s)) == None
    decreases |s|
  {
    if s == "" {
      assert [QUOTE] + done + Escaped(s) == [QUOTE] + done;
      ReadOpen(done);
    } else {
      HeadTail(done, s);
      assert [QUOTE] + done + Escaped(s) + "" == [QUOTE] + done + Escaped(s);
      if s[0] == QUOTE {
        var reopened := [QUOTE] + "" + Escaped(s[1..]);
        QuotePart(done, Escaped(s[1..]), "");
        assert reopened + "" == reopened;
        ReadRun(done, [BACKSLASH, QUOTE] + reopened);
        ReadEscape(reopened);
        CutRunRefused("", s[1..]);
      } else {
        PlainPart(done, s[0], Escaped(s[1..]), "");
        CutRunRefused(done + [s[0]], s[1..]);
        assert [QUOTE] + (done + [s[0]]) + Escaped(s[1..]) + "" == [QUOTE] + (done + [s[0]]) + Escaped(s[1..]);
      }
    }
  }
}
