/**
 * The rolling log each script keeps (`printLog`). Every call prints a stamped
 * entry and, when logging is enabled, rewrites the log file keeping only the
 * lines whose stamp is within the retention period, then appends the entry.
 *
 * The log file is its text (`None` when it does not exist); `readlines` on a
 * file opened in text mode is `ReadLines`, which reads `\r\n` and a lone `\r`
 * as `\n` before cutting the lines, and `writelines` is `Concat`.
 */
module LogRetention {
  import opened Wrappers
  import opened Text
  import opened Clock

  /**
   * Python's universal newlines on reading: `\r\n` and a lone `\r` both
   * become `\n`; every other character is read as it is.
   */
  function UniversalNewlines(text: string): (read: string)
    ensures '\r' !in read
    ensures '\r' !in text ==> read == text
    decreases |text|
  {
    if text == [] then []
    else if text[0] == '\r' then
      "\n" + UniversalNewlines(if |text| > 1 && text[1] == '\n' then text[2..] else text[1..])
    else
      assert text == [text[0]] + text[1..];
      [text[0]] + UniversalNewlines(text[1..])
  }

  /** `f.readlines()` in text mode: the newlines translated, then the text cut after every `\n`. */
  function ReadLines(text: string): (lines: seq<string>)
    ensures forall i | 0 <= i < |lines| :: |lines[i]| > 0 && '\r' !in lines[i]
  {
    SplitLines(UniversalNewlines(text))
  }

  /** The text cut after every newline; a last line without one is kept as is. */
  function SplitLines(text: string): (lines: seq<string>)
    ensures forall i | 0 <= i < |lines| :: |lines[i]| > 0
    ensures '\r' !in text ==> forall i | 0 <= i < |lines| :: '\r' !in lines[i]
    decreases |text|
  {
    if text == [] then []
    else
      var line := LineOf(text);
      [line] + SplitLines(text[|line|..])
  }

  /** The first line of `text`, with its newline if it has one. */
  function LineOf(text: string): (line: string)
    requires text != []
    ensures 0 < |line| <= |text| && line == text[..|line|]
    ensures '\n' !in line[..|line| - 1]
    ensures line[|line| - 1] == '\n' || line == text
  {
    if text[0] == '\n' then "\n"
    else if |text| == 1 then text
    else
      var rest := LineOf(text[1..]);
      assert ([text[0]] + rest)[..|rest|] == [text[0]] + rest[..|rest| - 1];
      [text[0]] + rest
  }

  /** `f.writelines(lines)` */
  function Concat(lines: seq<string>): string {
    if lines == [] then "" else lines[0] + Concat(lines[1..])
  }

  /** Writing one more line appends it to the text. */
  lemma {:induction false} ConcatAppend(lines: seq<string>, line: string)
    ensures Concat(lines + [line]) == Concat(lines) + line
  {
    if lines != [] {
      assert (lines + [line])[1..] == lines[1..] + [line];
      ConcatAppend(lines[1..], line);
    }
  }

  /** A line as the log writes it: one newline, at the end. */
  predicate IsLine(line: string) {
    |line| > 0 && line[|line| - 1] == '\n' && '\n' !in line[..|line| - 1]
  }

  /**
   * Lines written with `writelines` read back as the same lines, as long as
   * none holds a `\r`, which text mode would read as a line end.
   */
  lemma ReadLinesOfConcat(lines: seq<string>)
    requires forall i | 0 <= i < |lines| :: IsLine(lines[i]) && '\r' !in lines[i]
    ensures ReadLines(Concat(lines)) == lines
  {
    NoCarriageReturnInConcat(lines);
    SplitLinesOfConcat(lines);
  }

  lemma {:induction false} NoCarriageReturnInConcat(lines: seq<string>)
    requires forall i | 0 <= i < |lines| :: '\r' !in lines[i]
    ensures '\r' !in Concat(lines)
  {
    if lines != [] {
      NoCarriageReturnInConcat(lines[1..]);
    }
  }

  /** Cutting written lines gives them back. */
  lemma {:induction false} SplitLinesOfConcat(lines: seq<string>)
    requires forall i | 0 <= i < |lines| :: IsLine(lines[i])
    ensures SplitLines(Concat(lines)) == lines
  {
    if lines != [] {
      var text := Concat(lines);
      LineOfLine(lines[0], Concat(lines[1..]));
      assert text[|lines[0]|..] == Concat(lines[1..]);
      SplitLinesOfConcat(lines[1..]);
    }
  }

  lemma {:induction false} LineOfLine(line: string, rest: string)
    requires IsLine(line)
    ensures LineOf(line + rest) == line
  {
    if |line| > 1 {
      assert line[0] in line[..|line| - 1];
      assert (line + rest)[1..] == line[1..] + rest;
      assert line[1..][..|line| - 2] == line[1..|line| - 1];
      LineOfLine(line[1..], rest);
      assert line == [line[0]] + line[1..];
    }
  }

  /**
   * Reading the file and writing the lines back gives the file with its
   * newlines translated; a file without `\r` is reproduced.
   */
  lemma ConcatOfReadLines(text: string)
    ensures Concat(ReadLines(text)) == UniversalNewlines(text)
    ensures '\r' !in text ==> Concat(ReadLines(text)) == text
  {
    ConcatOfSplitLines(UniversalNewlines(text));
  }

  /** Joining the cut lines gives the text back. */
  lemma {:induction false} ConcatOfSplitLines(text: string)
    ensures Concat(SplitLines(text)) == text
    decreases |text|
  {
    if text != [] {
      var line := LineOf(text);
      var rest := text[|line|..];
      ConcatOfSplitLines(rest);
      ConcatCons(line, SplitLines(rest));
      SplitAt(text, |line|);
    }
  }

  /**
   * A `\r` ends a line: it is read as `\n`, and a `\n` right after it is
   * part of the same line end.
   */
  lemma CarriageReturnEndsLine(line: string, rest: string)
    requires '\n' !in line && '\r' !in line
    ensures ReadLines(line + "\r" + rest)
      == [line + "\n"] + ReadLines(if rest != [] && rest[0] == '\n' then rest[1..] else rest)
  {
    var after := if rest != [] && rest[0] == '\n' then rest[1..] else rest;
    assert line + "\r" + rest == line + ("\r" + rest);
    NewlinesAfterPlain(line, "\r" + rest);
    NewlinesOfCarriageReturn(rest);
    assert line + ("\n" + UniversalNewlines(after)) == (line + "\n") + UniversalNewlines(after);
    SplitAfterLine(line, UniversalNewlines(after));
  }

  /** A `\r`, with a `\n` right after it if there is one, is read as one `\n`. */
  lemma NewlinesOfCarriageReturn(rest: string)
    ensures UniversalNewlines("\r" + rest)
      == "\n" + UniversalNewlines(if rest != [] && rest[0] == '\n' then rest[1..] else rest)
  {
    var cr := "\r" + rest;
    assert cr[0] == '\r';
    if rest != [] && rest[0] == '\n' {
      assert cr[1] == '\n' && cr[2..] == rest[1..];
    } else {
      assert cr[1..] == rest;
    }
  }

  /** A line without a newline inside, ended by one, is cut off as the first line. */
  lemma SplitAfterLine(line: string, text: string)
    requires '\n' !in line
    ensures SplitLines((line + "\n") + text) == [line + "\n"] + SplitLines(text)
  {
    var l := line + "\n";
    assert l[..|l| - 1] == line;
    LineOfLine(l, text);
    assert (l + text)[|l|..] == text;
  }

  /** Characters other than `\r` are read as they are. */
  lemma {:induction false} NewlinesAfterPlain(plain: string, rest: string)
    requires '\r' !in plain
    ensures UniversalNewlines(plain + rest) == plain + UniversalNewlines(rest)
  {
    if plain == [] {
      assert plain + rest == rest;
    } else {
      var c, more := plain[0], plain[1..];
      assert plain == [c] + more;
      calc {
        UniversalNewlines(plain + rest);
        { assert plain + rest == [c] + (more + rest); }
        UniversalNewlines([c] + (more + rest));
        { assert c in plain; NewlinesOfPlainChar(c, more + rest); }
        [c] + UniversalNewlines(more + rest);
        { NewlinesAfterPlain(more, rest); }
        [c] + (more + UniversalNewlines(rest));
        plain + UniversalNewlines(rest);
      }
    }
  }

  /** A character other than `\r` is read as it is. */
  lemma NewlinesOfPlainChar(c: char, text: string)
    requires c != '\r'
    ensures UniversalNewlines([c] + text) == [c] + UniversalNewlines(text)
  {
    assert ([c] + text)[0] == c && ([c] + text)[1..] == text;
  }

  /** An unstamped text after a `\r` is a line of its own, and the retention pass drops it. */
  lemma CarriageReturnExample()
    ensures ReadLines("[x] a\rb\n") == ["[x] a\n", "b\n"]
  {
    var line, tail := "[x] a", "b\n";
    assert '\n' !in line && '\r' !in line;
    CarriageReturnEndsLine(line, tail);
    assert line + "\r" + tail == "[x] a\rb\n";
    assert IsLine(tail) && '\r' !in tail;
    assert Concat([tail]) == tail by {
      assert [tail][1..] == [];
    }
    ReadLinesOfConcat([tail]);
    assert ReadLines(line + "\r" + tail) == [line + "\n"] + [tail];
    assert line + "\n" == "[x] a\n";
  }

  /** Writing a first line, then the others. */
  lemma ConcatCons(line: string, lines: seq<string>)
    ensures Concat([line] + lines) == line + Concat(lines)
  {
    assert ([line] + lines)[1..] == lines;
  }

  /** A text is its first `k` characters followed by the rest. */
  lemma SplitAt(text: string, k: nat)
    requires k <= |text|
    ensures text[..k] + text[k..] == text
  {
  }

  /** The text of an entry: `[<stamp>] <message>`. */
  function Entry(now: int, message: string): string {
    "[" + FormatStamp(now) + "] " + message
  }

  /** The moment before which lines are dropped. */
  function Cutoff(now: int, retentionDays: int): int {
    now - retentionDays * SecondsPerDay
  }

  /**
   * Whether the retention pass keeps a line: it must start with `[`; the text
   * up to the first `]`, without brackets, is read as a stamp; a stamp that
   * does not parse keeps the line, one that does keeps it when not older than
   * the cutoff.
   */
  predicate KeepLine(line: string, cutoff: int) {
    StartsWith(line, "[") &&
    match LineStamp(line)
    case None => true
    case Some(t) => t >= cutoff
  }

  /** The stamp read from a line: the text before the first `]`, brackets stripped. */
  function LineStamp(line: string): Option<int> {
    ParseStamp(Strip(BeforeFirst(line, ']'), {'[', ']'}))
  }

  /** The lines the retention pass keeps, in their order. */
  function Retained(lines: seq<string>, cutoff: int): seq<string> {
    if lines == [] then []
    else
      var last := lines[|lines| - 1];
      Retained(lines[..|lines| - 1], cutoff) + (if KeepLine(last, cutoff) then [last] else [])
  }

  /** A retained line is a line of the file the pass keeps, and every such line is retained. */
  lemma {:induction false} RetainedExactly(lines: seq<string>, cutoff: int, line: string)
    ensures line in Retained(lines, cutoff) <==> line in lines && KeepLine(line, cutoff)
  {
    if lines != [] {
      var init := lines[..|lines| - 1];
      RetainedExactly(init, cutoff, line);
      assert lines == init + [lines[|lines| - 1]];
    }
  }

  /** Running the pass again with the same cutoff changes nothing. */
  lemma {:induction false} RetainedIdempotent(lines: seq<string>, cutoff: int)
    ensures Retained(Retained(lines, cutoff), cutoff) == Retained(lines, cutoff)
  {
    if lines != [] {
      var init := lines[..|lines| - 1];
      var last := lines[|lines| - 1];
      RetainedIdempotent(init, cutoff);
      var r := Retained(init, cutoff);
      if KeepLine(last, cutoff) {
        assert (r + [last])[..|r|] == r;
      } else {
        assert r + [] == r;
      }
    }
  }

  /** A line that does not start with `[`, such as a continuation line of a multi-line entry, is dropped. */
  lemma UnbracketedLineDropped(line: string, cutoff: int)
    requires line == [] || line[0] != '['
    ensures !KeepLine(line, cutoff)
  {
    NoBracketStart(line);
  }

  lemma NoBracketStart(line: string)
    requires line == [] || line[0] != '['
    ensures !StartsWith(line, "[")
  {
    if line != [] {
      assert line[..1][0] == line[0];
    }
  }

  /** A line `[<stamp>] <rest>` is read with the stamp between its brackets. */
  lemma LineStampOf(stamp: string, rest: string)
    requires ']' !in stamp && |stamp| > 0 && stamp[0] != '[' && stamp[|stamp| - 1] != '['
    ensures StartsWith("[" + stamp + "] " + rest, "[")
    ensures LineStamp("[" + stamp + "] " + rest) == ParseStamp(stamp)
  {
    StampBetweenBrackets(stamp, rest);
  }

  /** The text before the first `]` of such a line, brackets stripped, is the stamp. */
  lemma StampBetweenBrackets(stamp: string, rest: string)
    requires ']' !in stamp && |stamp| > 0 && stamp[0] != '[' && stamp[|stamp| - 1] != '['
    ensures StartsWith("[" + stamp + "] " + rest, "[")
    ensures Strip(BeforeFirst("[" + stamp + "] " + rest, ']'), {'[', ']'}) == stamp
  {
    BracketedLine(stamp, rest);
    assert ']' !in "[" + stamp;
    BeforeFirstOfPrefix("[" + stamp, "] " + rest, ']');
    StripBracket(stamp);
  }

  lemma BracketedLine(stamp: string, rest: string)
    ensures "[" + stamp + "] " + rest == ("[" + stamp) + ("] " + rest)
    ensures StartsWith("[" + stamp + "] " + rest, "[")
  {
    assert ("[" + stamp + "] " + rest)[..1] == "[";
  }

  lemma StripBracket(stamp: string)
    requires |stamp| > 0 && stamp[0] != '[' && stamp[0] != ']' && stamp[|stamp| - 1] != '[' && stamp[|stamp| - 1] != ']'
    ensures Strip("[" + stamp, {'[', ']'}) == stamp
  {
    assert "[" + stamp == ['['] + stamp;
    StripCons('[', stamp, {'[', ']'});
  }

  /** A line holding a stamp that reads as `t` is kept exactly when `t` is not older than the cutoff. */
  lemma KeepStampedLine(stamp: string, rest: string, t: int, cutoff: int)
    requires ']' !in stamp && |stamp| > 0 && IsDigit(stamp[0]) && IsDigit(stamp[|stamp| - 1])
    requires ParseStamp(stamp) == Some(t)
    ensures KeepLine("[" + stamp + "] " + rest, cutoff) <==> t >= cutoff
  {
    LineStampOf(stamp, rest);
  }

  /**
   * The line an entry writes is kept by a later pass exactly when the entry is
   * not older than that pass's cutoff.
   */
  lemma EntryKeptIffFresh(now: int, message: string, cutoff: int)
    requires 1 <= YearOf(now) <= 9999
    ensures KeepLine(Entry(now, message) + "\n", cutoff) <==> now >= cutoff
  {
    var stamp := FormatStamp(now);
    ParseFormatStamp(now);
    StampHasNoBracket(now);
    EntryLine(stamp, message);
    KeepStampedLine(stamp, message + "\n", now, cutoff);
  }

  lemma EntryLine(stamp: string, message: string)
    ensures "[" + stamp + "] " + message + "\n" == "[" + stamp + "] " + (message + "\n")
  { }

  lemma StampHasNoBracket(t: int)
    ensures var s := FormatStamp(t);
      ']' !in s && |s| >= 19 && IsDigit(s[0]) && IsDigit(s[|s| - 1])
  {
    var days, secs := t / SecondsPerDay, t % SecondsPerDay;
    var c := CivilFromDays(days);
    var y := if c.year < 0 then 0 else c.year;
    var parts := [Pad(y, 4), Pad(c.month, 2), Pad(c.day, 2), Pad(secs / 3600, 2), Pad(secs % 3600 / 60, 2), Pad(secs % 60, 2)];
    assert FormatStamp(t) == Stamp(parts[0], parts[1], parts[2], parts[3], parts[4], parts[5]);
    StampOfDigitsHasNoBracket(parts[0], parts[1], parts[2], parts[3], parts[4], parts[5]);
  }

  /** A stamp assembled from digit fields has digits at both ends and no `]`. */
  lemma StampOfDigitsHasNoBracket(y: string, m: string, d: string, hh: string, mm: string, ss: string)
    requires AllDigits(y) && AllDigits(m) && AllDigits(d) && AllDigits(hh) && AllDigits(mm) && AllDigits(ss)
    requires |y| >= 4 && |m| >= 2 && |d| >= 2 && |hh| >= 2 && |mm| >= 2 && |ss| >= 2
    ensures var s := Stamp(y, m, d, hh, mm, ss);
      ']' !in s && |s| >= 19 && IsDigit(s[0]) && IsDigit(s[|s| - 1])
  {
    var s := Stamp(y, m, d, hh, mm, ss);
    forall i | 0 <= i < |s|
      ensures IsDigit(s[i]) || s[i] in "-: "
    {
      StampChar(y, m, d, hh, mm, ss, i);
    }
  }

  lemma StampChar(y: string, m: string, d: string, hh: string, mm: string, ss: string, i: int)
    requires AllDigits(y) && AllDigits(m) && AllDigits(d) && AllDigits(hh) && AllDigits(mm) && AllDigits(ss)
    requires |y| >= 1 && |ss| >= 1
    requires 0 <= i < |Stamp(y, m, d, hh, mm, ss)|
    ensures var s := Stamp(y, m, d, hh, mm, ss);
      (IsDigit(s[i]) || s[i] in "-: ") && IsDigit(s[0]) && IsDigit(s[|s| - 1])
  {
  }

  lemma {:induction false} BeforeFirstOfPrefix(p: string, rest: string, c: char)
    requires c !in p && rest != [] && rest[0] == c
    ensures BeforeFirst(p + rest, c) == p
  {
    if p == [] {
      assert p + rest == rest;
    } else {
      assert (p + rest)[1..] == p[1..] + rest;
      BeforeFirstOfPrefix(p[1..], rest, c);
    }
  }

  /** The retention pass over the lines read from the log. */
  method RetainLines(lines: seq<string>, cutoff: int) returns (kept: seq<string>)
    ensures kept == Retained(lines, cutoff)
  {
    kept := [];
    var i := 0;
    while i < |lines|
      invariant 0 <= i <= |lines|
      invariant kept == Retained(lines[..i], cutoff)
    {
      var line := lines[i];
      assert lines[..i + 1][..i] == lines[..i];
      if StartsWith(line, "[") {
        var stamp := Strip(BeforeFirst(line, ']'), {'[', ']'});
        var entryTime := ParseStamp(stamp);
        assert entryTime == LineStamp(line);
        match entryTime
        case None =>
          kept := kept + [line];
        case Some(t) =>
          if t >= cutoff {
            kept := kept + [line];
          }
      }
      i := i + 1;
    }
    assert lines[..i] == lines;
  }

  /**
   * `printLog(message)` at time `now`: returns what it prints and the new log
   * text, `None` when logging is disabled and the file is left alone.
   */
  method PrintLog(file: Option<string>, now: int, retentionDays: int, enabled: bool, message: string)
    returns (printed: string, written: Option<string>)
    ensures printed == Entry(now, message)
    ensures !enabled ==> written == None
    ensures enabled ==> written == Some(Concat(Retained(ReadLines(file.GetOr("")), Cutoff(now, retentionDays))
                                               + [Entry(now, message) + "\n"]))
  {
    printed := "[" + FormatStamp(now) + "] " + message;
    if !enabled {
      return printed, None;
    }
    var lines := if file.Some? then ReadLines(file.value) else [];
    assert lines == ReadLines(file.GetOr(""));
    var cutoff := now - retentionDays * SecondsPerDay;
    assert cutoff == Cutoff(now, retentionDays);
    var kept := RetainLines(lines, cutoff);
    kept := kept + [printed + "\n"];
    written := Some(Concat(kept));
  }
}
