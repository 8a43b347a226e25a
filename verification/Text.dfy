/** The parts of Python's str type that the text cores rely on. */
module Text {

  datatype Option<+T> = None | Some(value: T)

  /** Characters at which str.splitlines ends a line. */
  predicate IsLineBreak(c: char) {
    c == '\n' || c == '\r' || '\U{000B}' <= c <= '\U{000C}' || '\U{001C}' <= c <= '\U{001E}'
    || c == '\U{0085}' || c == '\U{2028}' || c == '\U{2029}'
  }

  /** str.isspace for one character: what strip() and \s match. */
  predicate IsSpace(c: char) {
    '\U{0009}' <= c <= '\U{000D}' || '\U{001C}' <= c <= '\U{0020}' || c == '\U{0085}' || c == '\U{00A0}'
    || c == '\U{1680}' || '\U{2000}' <= c <= '\U{200A}' || c == '\U{2028}' || c == '\U{2029}'
    || c == '\U{202F}' || c == '\U{205F}' || c == '\U{3000}'
  }

  /** No character of s ends a line. */
  predicate OneLine(s: string) {
    forall i :: 0 <= i < |s| ==> !IsLineBreak(s[i])
  }

  // ---- strip ----

  function LStrip(s: string): string {
    if s != "" && IsSpace(s[0]) then LStrip(s[1..]) else s
  }

  function RStrip(s: string): string {
    if s != "" && IsSpace(s[|s| - 1]) then RStrip(s[..|s| - 1]) else s
  }

  function Strip(s: string): string {
    LStrip(RStrip(s))
  }

  /** Neither end of s is white space. */
  predicate Trimmed(s: string) {
    s == "" || (!IsSpace(s[0]) && !IsSpace(s[|s| - 1]))
  }

  lemma {:induction false} LStripIs(s: string, cut: nat)
    requires cut <= |s| && forall i :: 0 <= i < cut ==> IsSpace(s[i])
    requires cut < |s| ==> !IsSpace(s[cut])
    ensures LStrip(s) == s[cut..]
  {
    if cut > 0 {
      assert IsSpace(s[0]);
      LStripIs(s[1..], cut - 1);
      assert s[1..][cut - 1..] == s[cut..];
    }
  }

  lemma {:induction false} RStripIs(s: string, cut: nat)
    requires cut <= |s| && forall i :: cut <= i < |s| ==> IsSpace(s[i])
    requires cut > 0 ==> !IsSpace(s[cut - 1])
    ensures RStrip(s) == s[..cut]
    decreases |s|
  {
    if cut < |s| {
      RStripIs(s[..|s| - 1], cut);
      assert s[..|s| - 1][..cut] == s[..cut];
    } else {
      assert s[..cut] == s;
    }
  }

  /** Strip is the slice between the outermost non-space characters. */
  lemma StripIs(s: string, lo: nat, hi: nat)
    requires lo < hi <= |s| && !IsSpace(s[lo]) && !IsSpace(s[hi - 1])
    requires forall i :: 0 <= i < lo || hi <= i < |s| ==> IsSpace(s[i])
    ensures Strip(s) == s[lo..hi]
  {
    RStripIs(s, hi);
    LStripIs(s[..hi], lo);
    assert s[..hi][lo..] == s[lo..hi];
  }

  lemma StripAllSpace(s: string)
    requires forall i :: 0 <= i < |s| ==> IsSpace(s[i])
    ensures Strip(s) == ""
  {
    RStripIs(s, 0);
  }

  /** First position from i on that holds no space. */
  function NonSpaceFrom(s: string, i: nat): (k: nat)
    requires i <= |s|
    ensures i <= k <= |s| && (k < |s| ==> !IsSpace(s[k]))
    ensures forall j :: i <= j < k ==> IsSpace(s[j])
    decreases |s| - i
  {
    if i < |s| && IsSpace(s[i]) then NonSpaceFrom(s, i + 1) else i
  }

  /** End of the last non-space run before i. */
  function NonSpaceEnd(s: string, i: nat): (k: nat)
    requires i <= |s|
    ensures k <= i && (k > 0 ==> !IsSpace(s[k - 1]))
    ensures forall j :: k <= j < i ==> IsSpace(s[j])
  {
    if i > 0 && IsSpace(s[i - 1]) then NonSpaceEnd(s, i - 1) else i
  }

  lemma StripIsTrimmed(s: string)
    ensures Trimmed(Strip(s))
    ensures OneLine(s) ==> OneLine(Strip(s))
  {
    var lo, hi := NonSpaceFrom(s, 0), NonSpaceEnd(s, |s|);
    if lo < hi {
      StripIs(s, lo, hi);
    } else {
      StripAllSpace(s);
    }
  }

  lemma TrimmedStrip(s: string)
    requires Trimmed(s)
    ensures Strip(s) == s
  {
    if s != "" {
      StripIs(s, 0, |s|);
    }
  }

  predicate AllSpace(s: string) {
    forall i :: 0 <= i < |s| ==> IsSpace(s[i])
  }

  /** Spaces in front of and after a trimmed text strip away. */
  lemma StripPadded(left: string, s: string, right: string)
    requires Trimmed(s) && AllSpace(left) && AllSpace(right)
    ensures Strip(left + s + right) == s
  {
    var t := left + s + right;
    if s == "" {
      StripAllSpace(t);
    } else {
      var a, b := |left|, |left| + |s|;
      assert t[a] == s[0] && t[b - 1] == s[|s| - 1];
      StripIs(t, a, b);
    }
  }

  /** White space in front of a text that starts with none goes. */
  lemma StripIndent(indent: string, body: string)
    requires AllSpace(indent) && (body != "" ==> !IsSpace(body[0]))
    ensures LStrip(indent + body) == body
  {
    hide IsSpace;
    var line := indent + body;
    assert forall k :: 0 <= k < |indent| ==> line[k] == indent[k];
    assert body != "" ==> line[|indent|] == body[0];
    LStripIs(line, |indent|);
    assert line[|indent|..] == body;
  }

  /** Where white space in front of a text ends. */
  lemma LStripParts(s: string) returns (indent: string)
    ensures AllSpace(indent) && s == indent + LStrip(s) && (LStrip(s) != "" ==> !IsSpace(LStrip(s)[0]))
  {
    hide IsSpace;
    var k := NonSpaceFrom(s, 0);
    LStripIs(s, k);
    indent := s[..k];
  }

  /** What stripping takes away is white space. */
  lemma StripParts(s: string) returns (left: string, right: string)
    ensures AllSpace(left) && AllSpace(right) && s == left + Strip(s) + right
  {
    hide IsSpace;
    var lo, hi := NonSpaceFrom(s, 0), NonSpaceEnd(s, |s|);
    if lo < hi {
      StripIs(s, lo, hi);
      left, right := s[..lo], s[hi..];
    } else {
      StripAllSpace(s);
      left, right := s, "";
      assert s + "" + "" == s;
    }
  }

  // ---- splitlines and join ----

  /** Position of the first line break, or the length. */
  function BreakAt(s: string): (i: nat)
    ensures i <= |s|
    ensures i < |s| ==> IsLineBreak(s[i])
    ensures forall j :: 0 <= j < i ==> !IsLineBreak(s[j])
  {
    if s == "" || IsLineBreak(s[0]) then 0 else 1 + BreakAt(s[1..])
  }

  /** Where the line after the break at i starts; "\r\n" is one break. */
  function AfterBreak(s: string, i: nat): (j: nat)
    requires i < |s|
    ensures i < j <= |s|
  {
    if s[i] == '\r' && i + 1 < |s| && s[i + 1] == '\n' then i + 2 else i + 1
  }

  function SplitLines(s: string): seq<string>
    decreases |s|
  {
    if s == "" then []
    else
      var i := BreakAt(s);
      if i == |s| then [s] else [s[..i]] + SplitLines(s[AfterBreak(s, i)..])
  }

  lemma BreakAtUnique(s: string, i: nat)
    requires i <= |s| && (i < |s| ==> IsLineBreak(s[i]))
    requires forall j :: 0 <= j < i ==> !IsLineBreak(s[j])
    ensures BreakAt(s) == i
  {
  }

  /** Unfolding SplitLines at its first break. */
  lemma SplitStep(s: string, i: nat, j: nat)
    requires i < |s| && IsLineBreak(s[i]) && forall k :: 0 <= k < i ==> !IsLineBreak(s[k])
    requires j == AfterBreak(s, i)
    ensures SplitLines(s) == [s[..i]] + SplitLines(s[j..])
  {
    hide IsLineBreak;
    BreakAtUnique(s, i);
  }

  /** Any line break ends the line in front of it, and a carriage return and the newline after it are one. */
  lemma SplitLinesAtBreak(a: string, c: char, b: string)
    requires OneLine(a) && IsLineBreak(c)
    ensures c != '\r' || b == "" || b[0] != '\n' ==> SplitLines(a + [c] + b) == [a] + SplitLines(b)
    ensures SplitLines(a + "\r\n" + b) == [a] + SplitLines(b)
  {
    var s, t := a + [c] + b, a + "\r\n" + b;
    assert s[|a|] == c && t[|a|] == '\r' && t[|a| + 1] == '\n' && IsLineBreak('\r');
    assert b != "" ==> s[|a| + 1] == b[0];
    assert s[..|a|] == a && t[..|a|] == a && s[|a| + 1..] == b && t[|a| + 2..] == b;
    hide IsLineBreak, SplitLines;
    SplitStep(s, |a|, AfterBreak(s, |a|));
    SplitStep(t, |a|, AfterBreak(t, |a|));
  }

  /** A newline always ends the line in front of it: lines of a + "\n" + b are those of a + "\n", then those of b. */
  lemma {:induction false} SplitLinesAtNewline(a: string, b: string)
    ensures SplitLines(a + "\n" + b) == SplitLines(a + "\n") + SplitLines(b)
    decreases |a|
  {
    hide IsLineBreak, SplitLines, AfterBreak;
    var t := a + "\n";
    var i, j := FirstBreak(a);
    SplitStep(t, i, j);
    BreakInFront(t, b, i);
    SplitStep(t + b, i, j);
    assert (t + b)[..i] == t[..i];
    if j <= |a| {
      Shift(a, b, j);
      SplitLinesAtNewline(a[j..], b);
    } else {
      assert t[j..] == "" && (t + b)[j..] == b;
      SplitEmpty();
    }
  }

  lemma FirstBreak(a: string) returns (i: nat, j: nat)
    ensures var t := a + "\n";
            i <= |a| && IsLineBreak(t[i]) && (forall k :: 0 <= k < i ==> !IsLineBreak(t[k])) && j == AfterBreak(t, i)
  {
    var t := a + "\n";
    assert t[|a|] == '\n';
    i := BreakAt(t);
    j := AfterBreak(t, i);
  }

  lemma Shift(a: string, b: string, j: nat)
    requires j <= |a|
    ensures (a + "\n")[j..] == a[j..] + "\n" && (a + "\n" + b)[j..] == a[j..] + "\n" + b
  {
  }

  /** The first break of t stays where it is, and as long as it is, with a text after t's final newline. */
  lemma BreakInFront(t: string, b: string, i: nat)
    requires i < |t| && t[|t| - 1] == '\n' && IsLineBreak(t[i]) && forall k :: 0 <= k < i ==> !IsLineBreak(t[k])
    ensures IsLineBreak((t + b)[i]) && forall k :: 0 <= k < i ==> !IsLineBreak((t + b)[k])
    ensures AfterBreak(t + b, i) == AfterBreak(t, i)
  {
    hide IsLineBreak;
  }

  lemma SplitEmpty()
    ensures SplitLines("") == []
  {
  }

  lemma SplitOneLine(line: string)
    requires OneLine(line)
    ensures SplitLines(line + "\n") == [line]
  {
    var t := line + "\n";
    BreakAtUnique(t, |line|);
    assert t[..|line|] == line && t[AfterBreak(t, |line|)..] == "";
  }

  lemma {:induction false} SplitLinesOneLine(s: string)
    ensures forall k :: 0 <= k < |SplitLines(s)| ==> OneLine(SplitLines(s)[k])
    decreases |s|
  {
    if s != "" {
      var i := BreakAt(s);
      if i < |s| {
        SplitLinesOneLine(s[AfterBreak(s, i)..]);
      }
    }
  }

  function Join(sep: string, parts: seq<string>): string {
    if parts == [] then ""
    else if |parts| == 1 then parts[0]
    else parts[0] + sep + Join(sep, parts[1..])
  }

  /** Every element followed by a newline. */
  function Terminated(lines: seq<string>): string {
    if lines == [] then "" else lines[0] + "\n" + Terminated(lines[1..])
  }

  lemma {:induction false} SplitTerminated(lines: seq<string>)
    requires forall i :: 0 <= i < |lines| ==> OneLine(lines[i])
    ensures SplitLines(Terminated(lines)) == lines
  {
    hide OneLine, SplitLines;
    if lines == [] {
      SplitEmpty();
    } else {
      SplitTerminated(lines[1..]);
      SplitLinesAtNewline(lines[0], Terminated(lines[1..]));
      SplitOneLine(lines[0]);
    }
  }

  /** Joining with newlines and adding a final one is terminating every line. */
  lemma {:induction false} JoinTerminated(lines: seq<string>)
    requires lines != []
    ensures Join("\n", lines) + "\n" == Terminated(lines)
  {
    if |lines| == 1 {
      assert Terminated(lines[1..]) == "";
    } else {
      JoinTerminated(lines[1..]);
      assert lines[0] + "\n" + Join("\n", lines[1..]) + "\n" == lines[0] + "\n" + (Join("\n", lines[1..]) + "\n");
    }
  }

  /** "\n" is the only line break of s. */
  predicate NewlineOnly(s: string) {
    forall i :: 0 <= i < |s| && IsLineBreak(s[i]) ==> s[i] == '\n'
  }

  /** The lines of a text without other line breaks give the text back. */
  lemma {:induction false} JoinSplit(s: string)
    requires NewlineOnly(s)
    ensures Join("\n", SplitLines(s + "\n")) == s
    decreases |s|
  {
    hide IsLineBreak, SplitLines;
    var i := BreakAt(s);
    if i == |s| {
      SplitOneLine(s);
    } else {
      var line, rest := s[..i], s[i + 1..];
      assert s == line + "\n" + rest;
      JoinSplit(rest);
      SplitLinesAtNewline(line, rest + "\n");
      SplitOneLine(line);
      SplitNonEmpty(rest + "\n");
      assert s + "\n" == line + "\n" + (rest + "\n");
      JoinCons(line, SplitLines(rest + "\n"), rest);
    }
  }

  lemma SplitNonEmpty(s: string)
    requires s != ""
    ensures SplitLines(s) != []
  {
  }

  lemma JoinCons(line: string, lines: seq<string>, rest: string)
    requires lines != [] && Join("\n", lines) == rest
    ensures Join("\n", [line] + lines) == line + "\n" + rest
  {
    assert ([line] + lines)[1..] == lines;
  }

  // ---- partition ----

  /** Position of the first c, or the length: str.partition cuts there. */
  function IndexOf(s: string, c: char): (i: nat)
    ensures i <= |s|
    ensures i < |s| ==> s[i] == c
    ensures forall j :: 0 <= j < i ==> s[j] != c
  {
    if s == "" || s[0] == c then 0 else 1 + IndexOf(s[1..], c)
  }

  lemma IndexOfUnique(s: string, c: char, i: nat)
    requires i <= |s| && (i < |s| ==> s[i] == c)
    requires forall j :: 0 <= j < i ==> s[j] != c
    ensures IndexOf(s, c) == i
  {
  }

  lemma PairEnds(key: string, gap: string, indent: string, value: string)
    requires Trimmed(key) && Trimmed(value) && key != "" && value != ""
    ensures var s := key + (gap + ("=" + (indent + value))); Trimmed(s) && s[0] == key[0]
  {
    var s := key + (gap + ("=" + (indent + value)));
    assert s[0] == key[0] && s[|s| - 1] == value[|value| - 1];
  }

  /** partition("=") of a key and a value with white space around them. */
  lemma PairCut(key: string, gap: string, indent: string, value: string)
    requires '=' !in key && AllSpace(gap)
    ensures var s := key + (gap + ("=" + (indent + value)));
            var i := IndexOf(s, '=');
            i < |s| && s[..i] == key + gap && s[i + 1..] == indent + value
  {
    var s, i := key + (gap + ("=" + (indent + value))), |key| + |gap|;
    assert !IsSpace('=');
    hide IsSpace;
    forall j | 0 <= j < i ensures s[j] != '=' {
      if j < |key| { assert s[j] == key[j] && key[j] in key; } else { assert s[j] == gap[j - |key|]; }
    }
    assert s[i] == '=' && s[..i] == key + gap && s[i + 1..] == indent + value;
    IndexOfUnique(s, '=', i);
  }

  // ---- split on white space ----

  function FirstSpace(s: string): (i: nat)
    ensures i <= |s| && forall j :: 0 <= j < i ==> !IsSpace(s[j])
    ensures i < |s| ==> IsSpace(s[i])
  {
    if s == "" || IsSpace(s[0]) then 0 else 1 + FirstSpace(s[1..])
  }

  /** str.split() */
  function Words(s: string): seq<string>
    decreases |s|
  {
    if s == "" then []
    else if IsSpace(s[0]) then Words(s[1..])
    else
      var i := FirstSpace(s);
      [s[..i]] + Words(s[i..])
  }

  predicate Word(w: string) {
    w != "" && forall i :: 0 <= i < |w| ==> !IsSpace(w[i])
  }

  lemma FirstSpaceAfter(w: string, rest: string)
    requires Word(w) && (rest != "" ==> IsSpace(rest[0]))
    ensures FirstSpace(w + rest) == |w|
  {
    hide IsSpace;
    var t := w + rest;
    assert forall j :: 0 <= j < |w| ==> t[j] == w[j];
    if rest != "" { assert t[|w|] == rest[0]; }
  }

  lemma WordFirst(w: string, rest: string)
    requires Word(w) && (rest != "" ==> IsSpace(rest[0]))
    ensures Words(w + rest) == [w] + Words(rest)
  {
    hide IsSpace;
    var t := w + rest;
    FirstSpaceAfter(w, rest);
    assert t[0] == w[0] && t[..|w|] == w && t[|w|..] == rest;
  }

  lemma SpaceFirst(rest: string)
    ensures Words(" " + rest) == Words(rest) && IsSpace((" " + rest)[0])
  {
    assert (" " + rest)[1..] == rest;
  }

  /** A word in front, followed by a space. */
  lemma WordsCons(w: string, rest: string)
    requires Word(w)
    ensures Words(w + " " + rest) == [w] + Words(rest)
  {
    hide Words, IsSpace, Word;
    SpaceFirst(rest);
    WordFirst(w, " " + rest);
    assert w + " " + rest == w + (" " + rest);
  }

  // ---- numbers ----

  /** \d+ over the decimal digits 0 to 9. */
  predicate IsNumber(s: string) {
    s != "" && forall i :: 0 <= i < |s| ==> '0' <= s[i] <= '9'
  }

  function Digit(c: char): nat
    requires '0' <= c <= '9'
  {
    c as int - '0' as int
  }

  function Number(s: string): nat
    requires forall i :: 0 <= i < |s| ==> '0' <= s[i] <= '9'
  {
    if s == "" then 0 else 10 * Number(s[..|s| - 1]) + Digit(s[|s| - 1])
  }

  function DigitChar(d: nat): char
    requires d < 10
  {
    ('0' as int + d) as char
  }

  /** Decimal digits without leading zeros. */
  function Decimal(n: nat): string {
    if n < 10 then [DigitChar(n)] else Decimal(n / 10) + [DigitChar(n % 10)]
  }

  lemma {:induction false} NumberDecimal(n: nat)
    ensures IsNumber(Decimal(n)) && Number(Decimal(n)) == n
  {
    var s := Decimal(n);
    if n < 10 {
      assert s[..0] == "";
    } else {
      NumberDecimal(n / 10);
      assert s[..|s| - 1] == Decimal(n / 10);
    }
  }

  /** No way of writing a number is shorter. */
  lemma {:induction false} DecimalShortest(s: string)
    requires IsNumber(s)
    ensures |Decimal(Number(s))| <= |s|
  {
    var front, d := s[..|s| - 1], Digit(s[|s| - 1]);
    if front == "" {
      assert Number(front) == 0;
    } else {
      DecimalShortest(front);
      assert Number(s) / 10 == Number(front);
    }
  }
}
