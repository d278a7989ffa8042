/** The context history: one `context:: namespace` line per switch, newest last in the file. */
module History {
  import opened Lists
  import opened Text

  const LF := '\n'
  const CR := '\r'

  /** The longest line, terminator included, a bufio.Scanner accepts. */
  const MAX_TOKEN := 65536

  predicate IsBreak(c: char) {
    c == LF || c == CR
  }

  predicate OneLine(s: string) {
    forall i :: 0 <= i < |s| ==> !IsBreak(s[i])
  }

  function Line(context: string, namespace: string): string {
    context + ":: " + namespace
  }

  // ----- specification of the file operations

  /** Start of the last line: the byte after the last line break, not counting the final byte. */
  function LineStart(b: string, k: nat): (start: nat)
    requires k < |b|
    ensures start <= k
    ensures start > 0 ==> IsBreak(b[start - 1])
    ensures OneLine(b[start..k])
  {
    if k == 0 || IsBreak(b[k - 1]) then k
    else
      var start := LineStart(b, k - 1);
      assert b[start..k] == b[start..k - 1] + [b[k - 1]];
      start
  }

  function LastLine(b: string): string {
    if b == "" then "" else b[LineStart(b, |b| - 1)..]
  }

  function Appended(b: string, context: string, namespace: string): string {
    var entry := Line(context, namespace) + [LF];
    if entry == LastLine(b) then b else b + entry
  }

  /** Index of the first line feed of `b`, or its length. */
  function FirstBreak(b: string): (k: nat)
    ensures k <= |b|
    ensures forall i :: 0 <= i < k ==> b[i] != LF
    ensures k < |b| ==> b[k] == LF
  {
    if b == "" || b[0] == LF then 0 else 1 + FirstBreak(b[1..])
  }

  function DropCR(line: string): string {
    if line != "" && line[|line| - 1] == CR then line[..|line| - 1] else line
  }

  datatype Scan = Scan(lines: seq<string>, tooLong: bool)

  /** The lines a bufio.Scanner yields, stopping at a line that does not fit its buffer. */
  function ScanLines(b: string): Scan
    decreases |b|
  {
    var k := FirstBreak(b);
    if b == "" then Scan([], false)
    else if k >= MAX_TOKEN then Scan([], true)
    else if k == |b| then Scan([DropCR(b)], false)
    else
      var rest := ScanLines(b[k + 1..]);
      Scan([DropCR(b[..k])] + rest.lines, rest.tooLong)
  }

  /** None when the file is missing. */
  datatype ReadResult = NoHistory | Read(lines: seq<string>, tooLong: bool)

  /** The result of a read that has gathered `lines`, newest first, and still has `rest` to scan. */
  function Resumed(lines: seq<string>, rest: string): ReadResult {
    Read(Reverse(ScanLines(rest).lines) + lines, ScanLines(rest).tooLong)
  }

  /** Scanning takes one line off the front. */
  lemma ScanStep(rest: string)
    requires rest != "" && FirstBreak(rest) < MAX_TOKEN
    ensures var k := FirstBreak(rest);
            var after := if k == |rest| then "" else rest[k + 1..];
            ScanLines(rest) == Scan([DropCR(rest[..k])] + ScanLines(after).lines, ScanLines(after).tooLong)
  {
    hide FirstBreak, DropCR;
    if FirstBreak(rest) == |rest| {
      assert rest[..|rest|] == rest;
    }
  }

  lemma ScanOne(lines: seq<string>, rest: string)
    requires rest != "" && FirstBreak(rest) < MAX_TOKEN
    ensures var k := FirstBreak(rest);
            Resumed(lines, rest)
            == Resumed([DropCR(rest[..k])] + lines, if k == |rest| then "" else rest[k + 1..])
  {
    hide ScanLines, DropCR, FirstBreak, Reverse;
    var k := FirstBreak(rest);
    var one := DropCR(rest[..k]);
    var more := ScanLines(if k == |rest| then "" else rest[k + 1..]);
    ScanStep(rest);
    assert ScanLines(rest) == Scan([one] + more.lines, more.tooLong);
    ReverseCons(one, more.lines, lines);
  }

  lemma ReverseCons<T>(x: T, xs: seq<T>, ys: seq<T>)
    ensures Reverse([x] + xs) + ys == Reverse(xs) + ([x] + ys)
  {
    assert ([x] + xs)[1..] == xs;
    assert Reverse(xs) + [x] + ys == Reverse(xs) + ([x] + ys);
  }

  // ----- the code

  class HistoryFile {
    var bytes: Option<string>

    constructor ()
      ensures bytes == None
    {
      bytes := None;
    }

    /** Scans backwards one byte at a time from the end. */
    method GetLastLineWithSeek() returns (line: string)
      requires bytes.Some?
      ensures line == LastLine(bytes.value)
    {
      var b := bytes.value;
      line := "";
      var cursor := 0;
      var filesize := |b|;
      if filesize == 0 {
        return "";
      }
      while true
        invariant -filesize < cursor <= 0
        invariant line == b[filesize + cursor..]
        invariant cursor < 0 ==> LineStart(b, filesize - 1) == LineStart(b, filesize + cursor)
        decreases filesize + cursor
      {
        cursor := cursor - 1;
        var c := b[filesize + cursor];
        if cursor != -1 && (c == LF || c == CR) {
          assert LineStart(b, filesize + cursor + 1) == filesize + cursor + 1;
          assert line == LastLine(b);
          return;
        }
        line := [c] + line;
        assert line == b[filesize + cursor..];
        if cursor == -filesize {
          assert LineStart(b, filesize + cursor) == 0;
          assert line == LastLine(b);
          return;
        }
      }
    }

    method AppendToHistory(context: string, namespace: string)
      modifies this
      ensures bytes == Some(Appended(old(bytes).GetOr(""), context, namespace))
    {
      if bytes == None {
        bytes := Some("");
      }
      var entry := Line(context, namespace) + [LF];
      var last := GetLastLineWithSeek();
      if entry == last {
        return;
      }
      bytes := Some(bytes.value + entry);
    }

    method ReadHistory() returns (r: ReadResult)
      ensures r == match bytes
                   case None => NoHistory
                   case Some(b) => Read(Reverse(ScanLines(b).lines), ScanLines(b).tooLong)
    {
      if bytes == None {
        return NoHistory;
      }
      var lines: seq<string> := [];
      ghost var all := ScanLines(bytes.value);
      var rest := bytes.value;
      assert Resumed(lines, rest) == Read(Reverse(all.lines), all.tooLong);
      while rest != ""
        invariant Resumed(lines, rest) == Read(Reverse(all.lines), all.tooLong)
        decreases |rest|
      {
        var k := FirstBreak(rest);
        if k >= MAX_TOKEN {
          return Read(lines, true);
        }
        ScanOne(lines, rest);
        lines := [DropCR(rest[..k])] + lines;
        rest := if k == |rest| then "" else rest[k + 1..];
      }
      return Read(lines, false);
    }
  }

  // ----- whole histories

  datatype Call = Call(context: string, namespace: string)

  predicate CallOneLine(c: Call) {
    OneLine(c.context) && OneLine(c.namespace)
  }

  function AppendAll(b: string, calls: seq<Call>): string
    decreases |calls|
  {
    if calls == [] then b
    else AppendAll(Appended(b, calls[0].context, calls[0].namespace), calls[1..])
  }

  function Unlines(lines: seq<string>): string {
    if lines == [] then "" else lines[0] + [LF] + Unlines(lines[1..])
  }

  /** The lines without each one that repeats its predecessor, after a file that already holds `lines`. */
  function Dedup(lines: seq<string>, calls: seq<Call>): seq<string>
    decreases |calls|
  {
    if calls == [] then lines
    else
      var line := Line(calls[0].context, calls[0].namespace);
      Dedup(if lines != [] && lines[|lines| - 1] == line then lines else lines + [line], calls[1..])
  }

  ghost predicate Lines(lines: seq<string>) {
    forall i :: 0 <= i < |lines| ==> OneLine(lines[i]) && lines[i] != ""
  }

  ghost predicate NoAdjacentRepeat(lines: seq<string>) {
    forall i :: 0 < i < |lines| ==> lines[i] != lines[i - 1]
  }

  lemma {:induction false} UnlinesSnoc(lines: seq<string>, line: string)
    ensures Unlines(lines + [line]) == Unlines(lines) + line + [LF]
  {
    if lines == [] {
      assert lines + [line] == [line];
    } else {
      assert (lines + [line])[1..] == lines[1..] + [line];
      UnlinesSnoc(lines[1..], line);
    }
  }

  /** Walking back over a line without breaks stops at the line's start. */
  lemma {:induction false} LineStartAt(b: string, start: nat, k: nat)
    requires start <= k < |b|
    requires start == 0 || IsBreak(b[start - 1])
    requires OneLine(b[start..k])
    ensures LineStart(b, k) == start
    decreases k
  {
    if start < k {
      assert b[start..k][k - 1 - start] == b[k - 1];
      assert b[start..k - 1] == b[start..k][..k - 1 - start];
      LineStartAt(b, start, k - 1);
    }
  }

  /** The backward scan of a file of lines returns exactly its last line with the terminator. */
  lemma LastLineOfLines(lines: seq<string>, line: string)
    requires OneLine(line)
    ensures LastLine(Unlines(lines + [line])) == line + [LF]
  {
    var prefix := Unlines(lines);
    var b := Unlines(lines + [line]);
    UnlinesSnoc(lines, line);
    if lines != [] {
      UnlinesSnoc(lines[..|lines| - 1], lines[|lines| - 1]);
      assert lines == lines[..|lines| - 1] + [lines[|lines| - 1]];
      assert b[|prefix| - 1] == prefix[|prefix| - 1];
    }
    assert b[|prefix|..|b| - 1] == line;
    LineStartAt(b, |prefix|, |b| - 1);
  }

  lemma LineIsOneLine(c: Call)
    requires CallOneLine(c)
    ensures OneLine(Line(c.context, c.namespace)) && Line(c.context, c.namespace) != ""
  {
  }

  /** One append adds the line unless it repeats the last one. */
  lemma AppendedLine(lines: seq<string>, c: Call)
    requires Lines(lines) && CallOneLine(c)
    ensures var line := Line(c.context, c.namespace);
            Appended(Unlines(lines), c.context, c.namespace)
            == Unlines(if lines != [] && lines[|lines| - 1] == line then lines else lines + [line])
  {
    var line := Line(c.context, c.namespace);
    LineIsOneLine(c);
    UnlinesSnoc(lines, line);
    assert Unlines(lines) + line + [LF] == Unlines(lines) + (line + [LF]);
    if lines != [] {
      var last := lines[|lines| - 1];
      assert lines == lines[..|lines| - 1] + [last];
      LastLineOfLines(lines[..|lines| - 1], last);
      assert (last + [LF])[..|last|] == last && (line + [LF])[..|line|] == line;
    }
  }

  /** Any sequence of appends leaves the file holding the calls' lines without adjacent repeats. */
  lemma {:induction false} AppendAllDedups(lines: seq<string>, calls: seq<Call>)
    requires Lines(lines) && NoAdjacentRepeat(lines)
    requires forall i :: 0 <= i < |calls| ==> CallOneLine(calls[i])
    ensures AppendAll(Unlines(lines), calls) == Unlines(Dedup(lines, calls))
    ensures Lines(Dedup(lines, calls)) && NoAdjacentRepeat(Dedup(lines, calls))
    decreases |calls|
  {
    hide Appended, Unlines, OneLine;
    if calls != [] {
      var line := Line(calls[0].context, calls[0].namespace);
      AppendedLine(lines, calls[0]);
      LineIsOneLine(calls[0]);
      AppendAllDedups(if lines != [] && lines[|lines| - 1] == line then lines else lines + [line], calls[1..]);
    }
  }

  /** Every call's line is in the file and nothing else, in call order: `Dedup` only drops adjacent repeats. */
  lemma {:induction false} DedupKeepsLines(lines: seq<string>, calls: seq<Call>, line: string)
    ensures line in Dedup(lines, calls)
       <==> line in lines || exists i :: 0 <= i < |calls| && Line(calls[i].context, calls[i].namespace) == line
    ensures lines <= Dedup(lines, calls)
    decreases |calls|
  {
    if calls != [] {
      var first := Line(calls[0].context, calls[0].namespace);
      var next := if lines != [] && lines[|lines| - 1] == first then lines else lines + [first];
      DedupKeepsLines(next, calls[1..], line);
      if i :| 0 <= i < |calls| && Line(calls[i].context, calls[i].namespace) == line {
        if i > 0 {
          assert calls[1..][i - 1] == calls[i];
        }
      }
      if i :| 0 <= i < |calls[1..]| && Line(calls[1..][i].context, calls[1..][i].namespace) == line {
        assert calls[1..][i] == calls[i + 1];
      }
    }
  }

  lemma {:induction false} FirstBreakAt(line: string, rest: string)
    requires OneLine(line)
    ensures FirstBreak(line + [LF] + rest) == |line|
  {
    var b := line + [LF] + rest;
    if line != "" {
      assert b[1..] == line[1..] + [LF] + rest;
      assert line[0] != LF;
      FirstBreakAt(line[1..], rest);
    }
  }

  ghost predicate AllFit(lines: seq<string>) {
    forall i :: 0 <= i < |lines| ==> |lines[i]| < MAX_TOKEN
  }

  lemma AllFitTail(lines: seq<string>)
    requires lines != []
    ensures AllFit(lines) <==> |lines[0]| < MAX_TOKEN && AllFit(lines[1..])
  {
    if |lines[0]| < MAX_TOKEN && AllFit(lines[1..]) {
      forall i | 0 <= i < |lines|
        ensures |lines[i]| < MAX_TOKEN
      {
        if i > 0 {
          assert lines[i] == lines[1..][i - 1];
        }
      }
    }
  }

  lemma ScanFirst(line: string, rest: seq<string>)
    requires OneLine(line)
    ensures ScanLines(Unlines([line] + rest))
         == if |line| >= MAX_TOKEN then Scan([], true)
            else Scan([line] + ScanLines(Unlines(rest)).lines, ScanLines(Unlines(rest)).tooLong)
  {
    var b := Unlines([line] + rest);
    assert ([line] + rest)[1..] == rest;
    FirstBreakAt(line, Unlines(rest));
    assert b[..|line|] == line;
    assert b[|line| + 1..] == Unlines(rest);
    assert DropCR(line) == line;
  }

  /** Scanning a file of lines gives the lines back, and fails exactly when one is too long. */
  lemma {:induction false} ScanUnlines(lines: seq<string>)
    requires forall i :: 0 <= i < |lines| ==> OneLine(lines[i])
    ensures ScanLines(Unlines(lines)).tooLong <==> !AllFit(lines)
    ensures ScanLines(Unlines(lines)).lines <= lines
    ensures AllFit(lines) ==> ScanLines(Unlines(lines)).lines == lines
  {
    if lines == [] {
      assert Unlines(lines) == "";
    } else {
      ScanUnlines(lines[1..]);
      ScanFirst(lines[0], lines[1..]);
      AllFitTail(lines);
      assert lines == [lines[0]] + lines[1..];
    }
  }

  /** Reading after any calls from an empty file returns the adjacent-deduplicated lines, newest first. */
  lemma ReadAfterAppends(calls: seq<Call>)
    requires forall i :: 0 <= i < |calls| ==> CallOneLine(calls[i])
    ensures var scan := ScanLines(AppendAll("", calls));
            && (scan.tooLong <==> !AllFit(Dedup([], calls)))
            && (!scan.tooLong ==> Reverse(scan.lines) == Reverse(Dedup([], calls)))
            && NoAdjacentRepeat(Dedup([], calls))
  {
    assert Unlines([]) == "";
    AppendAllDedups([], calls);
    ScanUnlines(Dedup([], calls));
  }

  /** A context name of 65533 characters makes a line that ends the reading, though it is the only one. */
  lemma LongNameBreaksReading(c: char)
    requires !IsBreak(c)
    ensures var call := Call(seq(65533, _ => c), "");
            CallOneLine(call) && ScanLines(AppendAll("", [call])).tooLong
  {
    hide AppendAll, ScanLines, Appended;
    var call := Call(seq(65533, _ => c), "");
    ReadAfterAppends([call]);
    DedupOne(call);
  }

  lemma DedupOne(c: Call)
    ensures Dedup([], [c]) == [Line(c.context, c.namespace)]
  {
    assert [c][1..] == [];
  }

  // ----- parsing an entry

  datatype Entry = Malformed | ContextOnly(context: string) | Entry(context: string, namespace: string)

  function ParseHistoryEntry(entry: string): Entry {
    var split := Split(entry, "::");
    if |split| == 1 then ContextOnly(split[0])
    else if |split| == 2 then Entry(split[0], ReplaceChar(split[1], ' ', ""))
    else Malformed
  }

  lemma {:induction false} NoSpaceLeft(s: string)
    ensures ' ' !in ReplaceChar(s, ' ', "")
    ensures ' ' !in s ==> ReplaceChar(s, ' ', "") == s
  {
    if s != "" {
      NoSpaceLeft(s[1..]);
    }
  }

  /** Parsing inverts printing exactly when the context is clean for `::` and the namespace holds neither `::` nor a
      space. */
  lemma ParseLine(context: string, namespace: string)
    ensures ParseHistoryEntry(Line(context, namespace)) == Entry(context, namespace)
       <==> Clean([context, " " + namespace], ':') && ' ' !in namespace
  {
    var parts := [context, " " + namespace];
    var entry := Line(context, namespace);
    assert parts[1..] == [" " + namespace];
    assert "::" == [':', ':'];
    assert Join(parts, "::") == context + "::" + (" " + namespace);
    assert entry == Join(parts, "::");
    SplitJoin(parts, ':');
    var split := Split(entry, "::");
    NoSpaceLeft(namespace);
    assert (" " + namespace)[1..] == namespace;
    assert ReplaceChar(" " + namespace, ' ', "") == ReplaceChar(namespace, ' ', "");
    if ParseHistoryEntry(entry) == Entry(context, namespace) {
      NoSpaceLeft(split[1]);
      JoinSplit(entry, "::");
      assert split == [context, split[1]];
      assert split[1..] == [split[1]];
      assert entry == context + "::" + split[1];
      assert entry[|context| + 2..] == split[1];
      assert entry[|context| + 2..] == " " + namespace;
    }
  }
}
