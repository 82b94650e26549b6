/**
 * The string handling the scripts rely on, restricted to ASCII: Python's
 * `str.isdigit`, `int()`, `str.strip`, `str.split`, `str.join`, `str.startswith`
 * and `os.path.basename`, plus the decimal rendering of `f"{n}"`.
 */
module Text {
  import opened Wrappers

  /** The ASCII characters Python's `str.isspace` accepts. */
  const Whitespace: set<char> :=
    {' ', '\t', '\n', '\r', '\U{B}', '\U{C}', '\U{1C}', '\U{1D}', '\U{1E}', '\U{1F}'}

  predicate IsSpace(c: char) { c in Whitespace }

  predicate NoSpace(s: string) { forall i | 0 <= i < |s| :: !IsSpace(s[i]) }

  predicate IsDigit(c: char) { '0' <= c <= '9' }

  predicate AllDigits(s: string) { forall i | 0 <= i < |s| :: IsDigit(s[i]) }

  /** Python's `s.isdigit()` on ASCII text: non-empty and every character a digit. */
  predicate IsDigitString(s: string) { |s| > 0 && AllDigits(s) }

  function DigitValue(c: char): nat
    requires IsDigit(c)
  {
    (c - '0') as nat
  }

  function DigitChar(d: nat): (c: char)
    requires d < 10
    ensures IsDigit(c) && DigitValue(c) == d
  {
    ('0' as int + d) as char
  }

  /** The number a string of decimal digits denotes. */
  function DigitsValue(s: string): nat
    requires AllDigits(s)
  {
    if s == [] then 0 else DigitsValue(s[..|s| - 1]) * 10 + DigitValue(s[|s| - 1])
  }

  /** `str(n)` for a natural number: its shortest decimal rendering. */
  function NatToString(n: nat): (r: string)
    ensures IsDigitString(r) && DigitsValue(r) == n
    ensures |r| > 1 ==> r[0] != '0'
  {
    if n < 10 then [DigitChar(n)]
    else
      var prefix := NatToString(n / 10);
      var r := prefix + [DigitChar(n % 10)];
      assert r[..|r| - 1] == prefix;
      r
  }

  /** `str(i)` for any integer. */
  function IntToString(i: int): string {
    if i < 0 then "-" + NatToString(-i) else NatToString(i)
  }

  function Zeros(k: nat): (r: string)
    ensures |r| == k && AllDigits(r)
  {
    seq(k, _ => '0')
  }

  /** `f"{n:0{width}d}"`: the decimal rendering, left-padded with zeros to `width`. */
  function Pad(n: nat, width: nat): (r: string)
    ensures AllDigits(r) && |r| >= width && |r| >= 1
  {
    var d := NatToString(n);
    if |d| >= width then d else Zeros(width - |d|) + d
  }

  function Pow10(k: nat): nat {
    if k == 0 then 1 else 10 * Pow10(k - 1)
  }

  lemma {:induction false} NatToStringLength(n: nat, k: nat)
    requires 0 < k && n < Pow10(k)
    ensures |NatToString(n)| <= k
  {
    if n >= 10 {
      NatToStringLength(n / 10, k - 1);
    }
  }

  lemma {:induction false} DigitsValueOfZerosPrefix(k: nat, d: string)
    requires AllDigits(d)
    ensures AllDigits(Zeros(k) + d) && DigitsValue(Zeros(k) + d) == DigitsValue(d)
    decreases |d|, k
  {
    var s := Zeros(k) + d;
    if d == [] {
      assert s == Zeros(k);
      if k > 0 {
        assert s[..|s| - 1] == Zeros(k - 1) + [];
        DigitsValueOfZerosPrefix(k - 1, []);
      }
    } else {
      assert s[..|s| - 1] == Zeros(k) + d[..|d| - 1];
      DigitsValueOfZerosPrefix(k, d[..|d| - 1]);
    }
  }

  /** A padded field is exactly `width` digits and reads back as the number. */
  lemma PadValue(n: nat, width: nat)
    requires 0 < width && n < Pow10(width)
    ensures |Pad(n, width)| == width && DigitsValue(Pad(n, width)) == n
  {
    NatToStringLength(n, width);
    var d := NatToString(n);
    if |d| < width {
      DigitsValueOfZerosPrefix(width - |d|, d);
    }
  }

  predicate StartsWith(s: string, prefix: string) {
    |prefix| <= |s| && s[..|prefix|] == prefix
  }

  lemma StartsWithAppend(a: string, b: string)
    ensures StartsWith(a + b, a)
  {
    assert (a + b)[..|a|] == a;
  }

  /** `s.lower()` on ASCII letters. */
  function Lower(s: string): (r: string)
    ensures |r| == |s|
    ensures forall i | 0 <= i < |s| :: r[i] == (if 'A' <= s[i] <= 'Z' then (s[i] as int + 32) as char else s[i])
  {
    seq(|s|, i requires 0 <= i < |s| => if 'A' <= s[i] <= 'Z' then (s[i] as int + 32) as char else s[i])
  }

  /** `s.lstrip(chars)` */
  function TrimLeft(s: string, cs: set<char>): (r: string)
    ensures |r| <= |s| && r == s[|s| - |r|..]
    ensures r == [] || r[0] !in cs
  {
    if s != [] && s[0] in cs then TrimLeft(s[1..], cs) else s
  }

  /** `s.rstrip(chars)` */
  function TrimRight(s: string, cs: set<char>): (r: string)
    ensures |r| <= |s| && r == s[..|r|]
    ensures r == [] || r[|r| - 1] !in cs
  {
    if s != [] && s[|s| - 1] in cs then TrimRight(s[..|s| - 1], cs) else s
  }

  /** A leading character that is stripped goes, and stripping goes on after it. */
  lemma TrimLeftCons(c: char, s: string, cs: set<char>)
    requires c in cs
    ensures TrimLeft([c] + s, cs) == TrimLeft(s, cs)
  {
    assert ([c] + s)[1..] == s;
  }

  /** Stripping a text with one stripped character in front, and none at its ends, gives the text back. */
  lemma StripCons(c: char, s: string, cs: set<char>)
    requires c in cs && s != [] && s[0] !in cs && s[|s| - 1] !in cs
    ensures Strip([c] + s, cs) == s
  {
    TrimLeftCons(c, s, cs);
    TrimLeftNone(s, cs);
    TrimRightNone(s, cs);
  }

  /** Nothing to strip at the left leaves the text as it is. */
  lemma TrimLeftNone(s: string, cs: set<char>)
    requires s != [] && s[0] !in cs
    ensures TrimLeft(s, cs) == s
  {
  }

  /** Nothing to strip at the right leaves the text as it is. */
  lemma TrimRightNone(s: string, cs: set<char>)
    requires s != [] && s[|s| - 1] !in cs
    ensures TrimRight(s, cs) == s
  {
  }

  /** Stripping at the right never removes a character that is not being stripped, nor anything before it. */
  lemma {:induction false} TrimRightKeeps(s: string, k: int, cs: set<char>)
    requires 0 <= k < |s| && s[k] !in cs
    ensures |TrimRight(s, cs)| > k
  {
    if s[|s| - 1] in cs {
      TrimRightKeeps(s[..|s| - 1], k, cs);
    }
  }

  /** `s.strip(chars)` */
  function Strip(s: string, cs: set<char>): string {
    TrimRight(TrimLeft(s, cs), cs)
  }

  /** The index of the first non-whitespace character of `s` at or after `i`, or `|s|`. */
  function SpanStart(s: string, i: nat): (k: nat)
    requires i <= |s|
    ensures i <= k <= |s|
    decreases |s| - i
  {
    if i < |s| && IsSpace(s[i]) then SpanStart(s, i + 1) else i
  }

  /** The end of `s[lo..j]` once its trailing whitespace is dropped. */
  function SpanEnd(s: string, lo: nat, j: nat): (k: nat)
    requires lo <= j <= |s|
    ensures lo <= k <= j
    decreases j
  {
    if j > lo && IsSpace(s[j - 1]) then SpanEnd(s, lo, j - 1) else j
  }

  /** `s.strip()`, located by index. */
  function StripSpace(s: string): string {
    var a := SpanStart(s, 0);
    s[a..SpanEnd(s, a, |s|)]
  }

  lemma {:induction false} SpanStartTrims(s: string, i: nat)
    requires i <= |s|
    ensures TrimLeft(s[i..], Whitespace) == s[SpanStart(s, i)..]
    decreases |s| - i
  {
    if i < |s| && IsSpace(s[i]) {
      assert s[i..][1..] == s[i + 1..];
      SpanStartTrims(s, i + 1);
    }
  }

  lemma {:induction false} SpanEndTrims(s: string, lo: nat, j: nat)
    requires lo <= j <= |s|
    ensures TrimRight(s[lo..j], Whitespace) == s[lo..SpanEnd(s, lo, j)]
    decreases j
  {
    var t := s[lo..j];
    if j > lo && IsSpace(s[j - 1]) {
      assert t[|t| - 1] == s[j - 1];
      DropLast(s, lo, j);
      TrimRightDrop(t, Whitespace);
      SpanEndTrims(s, lo, j - 1);
      assert SpanEnd(s, lo, j) == SpanEnd(s, lo, j - 1);
    } else if j > lo {
      assert t[|t| - 1] == s[j - 1];
      TrimRightNone(t, Whitespace);
      assert SpanEnd(s, lo, j) == j;
    }
  }

  lemma TrimRightDrop(s: string, cs: set<char>)
    requires s != [] && s[|s| - 1] in cs
    ensures TrimRight(s, cs) == TrimRight(s[..|s| - 1], cs)
  {
  }

  lemma DropLast(s: string, lo: nat, j: nat)
    requires lo < j <= |s|
    ensures s[lo..j][..j - lo - 1] == s[lo..j - 1]
  {
    var a, b := s[lo..j][..j - lo - 1], s[lo..j - 1];
    assert |a| == |b|;
    forall k | 0 <= k < |a| ensures a[k] == b[k] {
      assert a[k] == s[lo + k] && b[k] == s[lo + k];
    }
  }

  /** Both renderings of `s.strip()` agree. */
  lemma StripSpaceIsStrip(s: string)
    ensures StripSpace(s) == Strip(s, Whitespace)
  {
    SpanStartTrims(s, 0);
    var a := SpanStart(s, 0);
    assert s[0..] == s;
    assert s[a..] == s[a..|s|];
    SpanEndTrims(s, a, |s|);
  }

  /** `s.replace(a, b)` for single characters. */
  function ReplaceChar(s: string, a: char, b: char): (r: string)
    ensures |r| == |s|
    ensures forall i | 0 <= i < |s| :: r[i] == (if s[i] == a then b else s[i])
  {
    seq(|s|, i requires 0 <= i < |s| => if s[i] == a then b else s[i])
  }

  /** `s.split(sep)` for a one-character separator: never empty, no part holds `sep`. */
  function SplitOn(s: string, sep: char): (parts: seq<string>)
    ensures |parts| >= 1
    ensures forall i | 0 <= i < |parts| :: sep !in parts[i]
  {
    if s == [] then [""]
    else
      var rest := SplitOn(s[1..], sep);
      if s[0] == sep then [""] + rest else [[s[0]] + rest[0]] + rest[1..]
  }

  /** `sep.join(parts)` */
  function Join(parts: seq<string>, sep: char): string {
    if parts == [] then ""
    else if |parts| == 1 then parts[0]
    else parts[0] + [sep] + Join(parts[1..], sep)
  }

  lemma {:induction false} SplitPrefix(p: string, s: string, sep: char)
    requires sep !in p
    ensures SplitOn(p + s, sep) == [p + SplitOn(s, sep)[0]] + SplitOn(s, sep)[1..]
  {
    if p != [] {
      assert (p + s)[1..] == p[1..] + s;
      SplitPrefix(p[1..], s, sep);
      assert [p[0]] + (p[1..] + SplitOn(s, sep)[0]) == p + SplitOn(s, sep)[0];
    } else {
      var sp := SplitOn(s, sep);
      assert p + s == s;
      assert p + sp[0] == sp[0];
      assert sp == [sp[0]] + sp[1..];
    }
  }

  /** Splitting what `Join` built gives the parts back, when no part holds the separator. */
  lemma {:induction false} SplitJoin(parts: seq<string>, sep: char)
    requires |parts| >= 1
    requires forall i | 0 <= i < |parts| :: sep !in parts[i]
    ensures SplitOn(Join(parts, sep), sep) == parts
  {
    if |parts| == 1 {
      SplitPrefix(parts[0], "", sep);
      assert parts[0] + "" == parts[0];
    } else {
      var rest := Join(parts[1..], sep);
      SplitJoin(parts[1..], sep);
      assert parts[0] + [sep] + rest == parts[0] + ([sep] + rest);
      SplitPrefix(parts[0], [sep] + rest, sep);
      assert ([sep] + rest)[1..] == rest;
      assert SplitOn([sep] + rest, sep) == [""] + parts[1..];
      assert parts[0] + "" == parts[0];
    }
  }

  /** The longest prefix of `s` without whitespace. */
  function TakeWord(s: string): (w: string)
    ensures |w| <= |s| && w == s[..|w|] && NoSpace(w)
    ensures |w| < |s| ==> IsSpace(s[|w|])
    ensures s != [] && !IsSpace(s[0]) ==> |w| > 0
  {
    if s == [] || IsSpace(s[0]) then [] else [s[0]] + TakeWord(s[1..])
  }

  /** `s.split()`: the maximal runs of non-whitespace characters, in order. */
  function Words(s: string): (ws: seq<string>)
    ensures forall i | 0 <= i < |ws| :: |ws[i]| > 0 && NoSpace(ws[i])
    decreases |s|
  {
    if s == [] then []
    else if IsSpace(s[0]) then Words(s[1..])
    else
      var w := TakeWord(s);
      [w] + Words(s[|w|..])
  }

  /** Whitespace-separated words, each non-empty and space-free, come back out of `split()`. */
  lemma {:induction false} WordsOfSpaced(parts: seq<string>)
    requires |parts| >= 1
    requires forall i | 0 <= i < |parts| :: |parts[i]| > 0 && NoSpace(parts[i])
    ensures Words(Join(parts, ' ')) == parts
  {
    var p := parts[0];
    if |parts| == 1 {
      TakeWordWhole(p, "");
      assert p + "" == p;
      assert p[|p|..] == [];
    } else {
      var rest := Join(parts[1..], ' ');
      var s := p + [' '] + rest;
      TakeWordWhole(p, [' '] + rest);
      assert s == p + ([' '] + rest);
      assert s[|p|..] == [' '] + rest;
      assert ([' '] + rest)[1..] == rest;
      WordsOfSpaced(parts[1..]);
    }
  }

  /** The same for a line: the words of a space-joined line ending in a newline. */
  lemma {:induction false} WordsOfLine(parts: seq<string>)
    requires |parts| >= 1
    requires forall i | 0 <= i < |parts| :: |parts[i]| > 0 && NoSpace(parts[i])
    ensures Words(Join(parts, ' ') + "\n") == parts
  {
    var p := parts[0];
    if |parts| == 1 {
      var s := p + "\n";
      TakeWordWhole(p, "\n");
      assert s[|p|..] == "\n";
      assert Words("\n") == Words("");
    } else {
      var rest := Join(parts[1..], ' ');
      var s := p + [' '] + rest + "\n";
      TakeWordWhole(p, [' '] + (rest + "\n"));
      assert s == p + ([' '] + (rest + "\n"));
      assert s[|p|..] == [' '] + (rest + "\n");
      assert ([' '] + (rest + "\n"))[1..] == rest + "\n";
      WordsOfLine(parts[1..]);
    }
  }

  lemma {:induction false} TakeWordWhole(w: string, s: string)
    requires |w| > 0 && NoSpace(w)
    requires s == [] || IsSpace(s[0])
    ensures TakeWord(w + s) == w
  {
    if |w| == 1 {
      assert (w + s)[1..] == s;
    } else {
      assert (w + s)[1..] == w[1..] + s;
      TakeWordWhole(w[1..], s);
    }
  }

  /** The text before the first `c` (`s.split(c, 1)[0]`). */
  function BeforeFirst(s: string, c: char): (r: string)
    ensures c !in r && StartsWith(s, r)
  {
    if s == [] || s[0] == c then [] else [s[0]] + BeforeFirst(s[1..], c)
  }

  /** `os.path.basename`: the text after the last `/`. */
  function Basename(path: string): (b: string)
    ensures '/' !in b
  {
    if path == [] || path[|path| - 1] == '/' then []
    else Basename(path[..|path| - 1]) + [path[|path| - 1]]
  }

  lemma {:induction false} BasenameOfJoined(dir: string, name: string)
    requires '/' !in name
    ensures Basename(dir + "/" + name) == name
  {
    if name == [] {
      assert dir + "/" + name == dir + "/";
    } else {
      var p := dir + "/" + name;
      assert p[..|p| - 1] == dir + "/" + name[..|name| - 1];
      BasenameOfJoined(dir, name[..|name| - 1]);
    }
  }

  /**
   * Python's `int(s)` on ASCII text: surrounding whitespace, an optional sign,
   * then decimal digits. `None` stands for the `ValueError`.
   */
  function PyInt(s: string): Option<int> {
    IntOfStripped(StripSpace(s))
  }

  /** `int()` of text with no surrounding whitespace. */
  function IntOfStripped(t: string): Option<int> {
    if |t| > 0 && (t[0] == '+' || t[0] == '-') then
      if IsDigitString(t[1..]) then
        var magnitude: int := DigitsValue(t[1..]);
        Some(if t[0] == '-' then -magnitude else magnitude)
      else None
    else if IsDigitString(t) then Some(DigitsValue(t))
    else None
  }

  lemma IntOfDigitString(t: string)
    requires IsDigitString(t)
    ensures IntOfStripped(t) == Some(DigitsValue(t))
  {
    assert IsDigit(t[0]);
  }

  lemma StripDigits(s: string)
    requires IsDigitString(s)
    ensures Strip(s, Whitespace) == s
  {
    assert !IsSpace(s[0]) && !IsSpace(s[|s| - 1]);
  }

  lemma PyIntOfDigits(s: string)
    requires IsDigitString(s)
    ensures PyInt(s) == Some(DigitsValue(s))
  {
    StripDigits(s);
    StripSpaceIsStrip(s);
    IntOfDigitString(s);
  }

  /** `int(str(n)) == n`. */
  lemma PyIntOfNatToString(n: nat)
    ensures PyInt(NatToString(n)) == Some(n)
  {
    PyIntOfDigits(NatToString(n));
  }
}
