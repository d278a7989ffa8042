/** `kswitch exec`: rendering an argument vector as one script for a POSIX shell. */
module Exec {
  import opened Lists
  import opened Text

  /** A single POSIX shell word holding `s`. */
  function ShellQuote(s: string): string {
    "'" + ReplaceChar(s, '\'', "'\\''") + "'"
  }

  function QuoteAll(args: seq<string>): seq<string> {
    seq(|args|, i requires 0 <= i < |args| => ShellQuote(args[i]))
  }

  function Script(command: seq<string>): string {
    if |command| < 2 then Join(command, "") else Join(QuoteAll(command), " ")
  }

  method ShellCommand(command: seq<string>) returns (script: string)
    ensures script == Script(command)
  {
    if |command| < 2 {
      return Join(command, "");
    }
    var quoted: seq<string> := [];
    for i := 0 to |command|
      invariant quoted == QuoteAll(command[..i])
    {
      quoted := quoted + [ShellQuote(command[i])];
    }
    assert command[..|command|] == command;
    return Join(quoted, " ");
  }

  // ----- the shell's side: token recognition with quoting, sections 2.2 and 2.3 of the
  // ----- POSIX.1-2017 Shell Command Language

  /** Where the recogniser stands: between words, in the unquoted part of a word, or inside single quotes. */
  datatype Mode = Between | Unquoted(word: string) | SingleQuoted(word: string)

  /** Characters that mean something to the shell when unquoted; no word of plain text holds them. */
  const SPECIAL := "|&;<>()$`\"*?[#~=%!{}\n"

  /** The words of a script, or None when it is not a plain list of complete words. */
  function Words(s: string, mode: Mode, done: seq<string>): Option<seq<string>>
    decreases |s|
  {
    if s == "" then
      match mode
      case Between => Some(done)
      case Unquoted(w) => Some(done + [w])
      case SingleQuoted(_) => None
    else if mode.SingleQuoted? then
      if s[0] == '\'' then Words(s[1..], Unquoted(mode.word), done)
      else Words(s[1..], SingleQuoted(mode.word + [s[0]]), done)
    else
      var word := if mode.Unquoted? then mode.word else "";
      if s[0] == ' ' || s[0] == '\t' then
        Words(s[1..], Between, if mode.Unquoted? then done + [word] else done)
      else if s[0] == '\'' then Words(s[1..], SingleQuoted(word), done)
      else if s[0] == '\\' then
        if |s| == 1 then None
        else if s[1] == '\n' then Words(s[2..], mode, done)
        else Words(s[2..], Unquoted(word + [s[1]]), done)
      else if s[0] in SPECIAL then None
      else Words(s[1..], Unquoted(word + [s[0]]), done)
  }

  /** A quote written as closing quote, escaped quote and opening quote stands for itself inside a word. */
  lemma EscapedQuote(w: string, tail: string, done: seq<string>)
    ensures Words("'\\''" + tail, SingleQuoted(w), done) == Words(tail, SingleQuoted(w + ['\'']), done)
  {
    var body := "'\\''" + tail;
    assert body[1..] == "\\''" + tail;
    assert body[1..][2..] == "'" + tail;
    assert body[1..][2..][1..] == tail;
    assert Words(body, SingleQuoted(w), done) == Words(body[1..], Unquoted(w), done);
    assert Words(body[1..], Unquoted(w), done) == Words(body[1..][2..], Unquoted(w + ['\'']), done);
  }

  lemma ClosingQuote(w: string, rest: string, done: seq<string>)
    ensures Words("'" + rest, SingleQuoted(w), done) == Words(rest, Unquoted(w), done)
  {
    assert ("'" + rest)[1..] == rest;
  }

  lemma PlainQuoted(c: char, w: string, tail: string, done: seq<string>)
    requires c != '\''
    ensures Words([c] + tail, SingleQuoted(w), done) == Words(tail, SingleQuoted(w + [c]), done)
  {
    assert ([c] + tail)[1..] == tail;
  }

  /** Scanning the quoted text of `s` up to its closing quote adds exactly `s` to the word. */
  lemma {:induction false} ScanQuoted(s: string, w: string, rest: string, done: seq<string>)
    ensures Words(ReplaceChar(s, '\'', "'\\''") + "'" + rest, SingleQuoted(w), done)
         == Words(rest, Unquoted(w + s), done)
    decreases |s|
  {
    hide Words;
    var body := ReplaceChar(s, '\'', "'\\''") + "'" + rest;
    if s == "" {
      ClosingQuote(w, rest, done);
      assert body == "'" + rest;
      assert w + s == w;
    } else {
      var tail := ReplaceChar(s[1..], '\'', "'\\''") + "'" + rest;
      ScanQuoted(s[1..], w + [s[0]], rest, done);
      assert w + [s[0]] + s[1..] == w + s;
      if s[0] == '\'' {
        EscapedQuote(w, tail, done);
        assert body == "'\\''" + tail;
      } else {
        PlainQuoted(s[0], w, tail, done);
        assert body == [s[0]] + tail;
      }
    }
  }

  lemma {:induction false} ScanWords(args: seq<string>, done: seq<string>)
    requires args != []
    ensures Words(Join(QuoteAll(args), " "), Between, done) == Some(done + args)
    decreases |args|
  {
    var quoted := QuoteAll(args);
    var s := Join(quoted, " ");
    var body := ReplaceChar(args[0], '\'', "'\\''");
    if |args| == 1 {
      assert s == "'" + (body + "'" + "");
      assert s[1..] == body + "'" + "";
      ScanQuoted(args[0], "", "", done);
      assert "" + args[0] == args[0];
      assert [args[0]] == args;
    } else {
      var tail := Join(QuoteAll(args[1..]), " ");
      assert quoted[1..] == QuoteAll(args[1..]);
      assert s == "'" + (body + "'" + (" " + tail));
      assert s[1..] == body + "'" + (" " + tail);
      ScanQuoted(args[0], "", " " + tail, done);
      assert "" + args[0] == args[0];
      assert (" " + tail)[1..] == tail;
      ScanWords(args[1..], done + [args[0]]);
      assert done + [args[0]] + args[1..] == done + args;
    }
  }

  /** Two or more arguments reach the shell as exactly those words, whatever they contain. */
  lemma ScriptTokenises(args: seq<string>)
    requires |args| >= 2
    ensures Words(Script(args), Between, []) == Some(args)
  {
    ScanWords(args, []);
    assert [] + args == args;
  }

  /** No two argument vectors of two or more words share a script. */
  lemma ScriptInjective(a: seq<string>, b: seq<string>)
    requires |a| >= 2 && |b| >= 2 && Script(a) == Script(b)
    ensures a == b
  {
    ScriptTokenises(a);
    ScriptTokenises(b);
  }

  /** A lone argument is passed through raw, so a space in it separates words. */
  lemma LoneArgumentIsRaw(a: char, b: char)
    requires {a, b} !! {' ', '\t', '\'', '\\'} && a !in SPECIAL && b !in SPECIAL
    ensures Words(Script([[a, ' ', b]]), Between, []) == Some([[a], [b]])
  {
    var s := [a, ' ', b];
    assert Script([s]) == s;
    assert s[1..] == [' ', b] && s[2..] == [b];
    assert [' ', b][1..] == [b] && [b][1..] == "";
    assert "" + [a] == [a] && "" + [b] == [b];
    assert Words(s, Between, []) == Words([' ', b], Unquoted([a]), []);
    var none: seq<string> := [];
    assert [[a]] + [[b]] == [[a], [b]];
    assert none + [[a]] == [[a]];
    assert Words([' ', b], Unquoted([a]), none) == Words([b], Between, [[a]]);
    assert Words([b], Between, [[a]]) == Words("", Unquoted([b]), [[a]]);
  }
}
