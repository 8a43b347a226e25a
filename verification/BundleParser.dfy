/** The text core of bundle_parser.py: cutting a bundle into sections, reading the file name of a
    section, and reading INI text with repeated keys. */
module BundleParser {
  import opened Text

  // ---- _split_sections ----

  const DELIMITER := "---"

  predicate IsDelimiter(line: string) {
    Strip(line) == DELIMITER
  }

  /** A line is a delimiter exactly when it reads "---" between white space. */
  lemma DelimiterIff(line: string)
    ensures IsDelimiter(line)
       <==> exists left, right :: AllSpace(left) && AllSpace(right) && line == left + "---" + right
  {
    hide IsSpace, AllSpace, Strip;
    if IsDelimiter(line) {
      var left, right := StripParts(line);
    }
    if left, right :| AllSpace(left) && AllSpace(right) && line == left + "---" + right {
      DashesTrimmed();
      StripPadded(left, "---", right);
    }
  }

  lemma DashesTrimmed()
    ensures Trimmed("---")
  {
  }

  function Close(sections: seq<string>, current: seq<string>): seq<string> {
    if current == [] then sections else sections + [Join("\n", current)]
  }

  /** The sections once the remaining lines are read as well. */
  function Cut(lines: seq<string>, current: seq<string>, sections: seq<string>): seq<string> {
    if lines == [] then Close(sections, current)
    else if IsDelimiter(lines[0]) then Cut(lines[1..], [], Close(sections, current))
    else Cut(lines[1..], current + [lines[0]], sections)
  }

  function Sections(content: string): seq<string> {
    Cut(SplitLines(content), [], [])
  }

  method SplitSections(content: string) returns (sections: seq<string>)
    ensures sections == Sections(content)
  {
    hide SplitLines, IsDelimiter, Join;
    sections := [];
    var current: seq<string> := [];
    var lines := SplitLines(content);
    for i := 0 to |lines|
      invariant Cut(lines, [], []) == Cut(lines[i..], current, sections)
    {
      assert lines[i..][1..] == lines[i + 1..];
      if IsDelimiter(lines[i]) {
        if current != [] {
          sections := sections + [Join("\n", current)];
          current := [];
        }
      } else {
        current := current + [lines[i]];
      }
    }
    if current != [] {
      sections := sections + [Join("\n", current)];
    }
  }

  predicate DelimiterFree(lines: seq<string>) {
    forall i :: 0 <= i < |lines| ==> !IsDelimiter(lines[i])
  }

  lemma {:induction false} CutBlock(block: seq<string>, rest: seq<string>, current: seq<string>, sections: seq<string>)
    requires DelimiterFree(block)
    ensures Cut(block + rest, current, sections) == Cut(rest, current + block, sections)
  {
    if block == [] {
      assert block + rest == rest && current + block == current;
    } else {
      assert (block + rest)[1..] == block[1..] + rest;
      CutBlock(block[1..], rest, current + [block[0]], sections);
      assert current + [block[0]] + block[1..] == current + block;
    }
  }

  lemma {:induction false} CutAppends(lines: seq<string>, current: seq<string>, sections: seq<string>)
    ensures Cut(lines, current, sections) == sections + Cut(lines, current, [])
  {
    hide IsDelimiter, Join;
    if lines != [] {
      if IsDelimiter(lines[0]) {
        CutAppends(lines[1..], [], Close(sections, current));
        CutAppends(lines[1..], [], Close([], current));
        assert sections + Close([], current) == Close(sections, current);
      } else {
        CutAppends(lines[1..], current + [lines[0]], sections);
      }
    }
  }

  /** The first run of lines without a delimiter makes a section, unless it is empty, and the lines after the
      delimiter are cut on their own. */
  lemma CutAtDelimiter(block: seq<string>, delimiter: string, rest: seq<string>)
    requires DelimiterFree(block) && IsDelimiter(delimiter)
    ensures Cut(block + [delimiter] + rest, [], [])
         == (if block == [] then [] else [Join("\n", block)]) + Cut(rest, [], [])
    ensures Cut(block, [], []) == if block == [] then [] else [Join("\n", block)]
  {
    hide IsDelimiter, Join;
    CutBlock(block, [delimiter] + rest, [], []);
    CutBlock(block, [], [], []);
    assert block + [] == block && [] + block == block;
    assert block + [delimiter] + rest == block + ([delimiter] + rest) && ([delimiter] + rest)[1..] == rest;
    CutAppends(rest, [], Close([], block));
  }

  /** What a section is made of. */
  ghost predicate JoinOfLines(section: string) {
    exists lines :: lines != [] && DelimiterFree(lines) && (forall i :: 0 <= i < |lines| ==> OneLine(lines[i]))
                    && section == Join("\n", lines)
  }

  lemma {:induction false} CutJoins(lines: seq<string>, current: seq<string>, sections: seq<string>)
    requires forall i :: 0 <= i < |lines| ==> OneLine(lines[i])
    requires DelimiterFree(current) && forall i :: 0 <= i < |current| ==> OneLine(current[i])
    requires forall s :: s in sections ==> JoinOfLines(s)
    ensures forall s :: s in Cut(lines, current, sections) ==> JoinOfLines(s)
  {
    hide OneLine, IsDelimiter, Join;
    assert current != [] ==> JoinOfLines(Join("\n", current));
    if lines != [] {
      if IsDelimiter(lines[0]) {
        CutJoins(lines[1..], [], Close(sections, current));
      } else {
        CutJoins(lines[1..], current + [lines[0]], sections);
      }
    }
  }

  lemma LinesOfJoin(lines: seq<string>)
    requires lines != [] && forall i :: 0 <= i < |lines| ==> OneLine(lines[i])
    ensures SplitLines(Join("\n", lines) + "\n") == lines
  {
    JoinTerminated(lines);
    SplitTerminated(lines);
  }

  /** No line of a section is a delimiter. */
  lemma SectionsDelimiterFree(content: string, section: string)
    requires section in Sections(content)
    ensures DelimiterFree(SplitLines(section + "\n"))
  {
    SplitLinesOneLine(content);
    CutJoins(SplitLines(content), [], []);
    hide OneLine, IsDelimiter, Join;
    var lines :| lines != [] && DelimiterFree(lines) && (forall i :: 0 <= i < |lines| ==> OneLine(lines[i]))
                 && section == Join("\n", lines);
    LinesOfJoin(lines);
  }

  // ---- joining sections into a bundle, and cutting it again ----

  const SEPARATOR := "\n---\n"

  function Bundle(texts: seq<string>): string {
    Join(SEPARATOR, texts) + "\n"
  }

  /** The lines of a section text as they stand in a bundle. */
  function LinesOf(text: string): seq<string> {
    SplitLines(text + "\n")
  }

  /** A section text with any other line break replaced by "\n". */
  function Normalized(text: string): string {
    Join("\n", LinesOf(text))
  }

  function NormalizedAll(texts: seq<string>): (r: seq<string>)
    ensures |r| == |texts|
  {
    seq(|texts|, i requires 0 <= i < |texts| => Normalized(texts[i]))
  }

  lemma BundleLines(text: string, rest: seq<string>)
    requires rest != []
    ensures SplitLines(Bundle([text] + rest)) == LinesOf(text) + [DELIMITER] + SplitLines(Bundle(rest))
  {
    var texts := [text] + rest;
    assert texts[1..] == rest;
    assert Bundle(texts) == text + "\n" + (DELIMITER + "\n" + Bundle(rest));
    hide Bundle, SplitLines, OneLine;
    SplitLinesAtNewline(text, DELIMITER + "\n" + Bundle(rest));
    SplitLinesAtNewline(DELIMITER, Bundle(rest));
    assert OneLine(DELIMITER) by { DashesOneLine(); }
    SplitOneLine(DELIMITER);
  }

  lemma DashesOneLine()
    ensures OneLine(DELIMITER)
  {
  }

  lemma CutOne(text: string, tail: seq<string>, sections: seq<string>)
    requires DelimiterFree(LinesOf(text))
    ensures Cut(LinesOf(text) + [DELIMITER] + tail, [], sections) == Cut(tail, [], sections + [Normalized(text)])
  {
    var lines := LinesOf(text);
    SplitNonEmpty(text + "\n");
    TrimmedStrip(DELIMITER);
    hide Join, SplitLines, Strip;
    assert lines + [DELIMITER] + tail == lines + ([DELIMITER] + tail);
    CutBlock(lines, [DELIMITER] + tail, [], sections);
    assert [] + lines == lines;
    assert ([DELIMITER] + tail)[1..] == tail;
  }

  lemma CutLast(text: string, sections: seq<string>)
    requires DelimiterFree(LinesOf(text))
    ensures Cut(SplitLines(text + "\n"), [], sections) == sections + [Normalized(text)]
  {
    var lines := LinesOf(text);
    SplitNonEmpty(text + "\n");
    hide Join, SplitLines, IsDelimiter;
    CutBlock(lines, [], [], sections);
    assert lines + [] == lines && [] + lines == lines;
  }

  /** No line of any text is a delimiter. */
  predicate AllDelimiterFree(texts: seq<string>) {
    forall i :: 0 <= i < |texts| ==> DelimiterFree(LinesOf(texts[i]))
  }

  lemma HeadAndTail(texts: seq<string>)
    requires texts != [] && AllDelimiterFree(texts)
    ensures DelimiterFree(LinesOf(texts[0])) && AllDelimiterFree(texts[1..])
    ensures NormalizedAll(texts) == [Normalized(texts[0])] + NormalizedAll(texts[1..])
    ensures |texts| == 1 ==> Bundle(texts) == texts[0] + "\n" && NormalizedAll(texts[1..]) == []
  {
  }

  lemma Regroup<T>(xs: seq<T>, y: T, zs: seq<T>)
    ensures (xs + [y]) + zs == xs + ([y] + zs) && [y] + [] == [y]
  {
  }

  lemma {:induction false} CutBundle(texts: seq<string>, sections: seq<string>)
    requires texts != [] && AllDelimiterFree(texts)
    ensures Cut(SplitLines(Bundle(texts)), [], sections) == sections + NormalizedAll(texts)
  {
    HeadAndTail(texts);
    hide *;
    var rest := texts[1..];
    Regroup(sections, Normalized(texts[0]), NormalizedAll(rest));
    if |texts| == 1 {
      CutLast(texts[0], sections);
    } else {
      assert texts == [texts[0]] + rest;
      BundleLines(texts[0], rest);
      CutOne(texts[0], SplitLines(Bundle(rest)), sections);
      CutBundle(rest, sections + [Normalized(texts[0])]);
    }
  }

  /** Cutting a bundle gives its sections back, in order, exactly when no line of them reads "---". */
  lemma CutRecoversIff(texts: seq<string>)
    requires texts != []
    ensures Sections(Bundle(texts)) == NormalizedAll(texts)
       <==> AllDelimiterFree(texts)
  {
    if AllDelimiterFree(texts) {
      CutBundle(texts, []);
      assert [] + NormalizedAll(texts) == NormalizedAll(texts);
    } else if Sections(Bundle(texts)) == NormalizedAll(texts) {
      forall i | 0 <= i < |texts| ensures DelimiterFree(LinesOf(texts[i])) {
        assert NormalizedAll(texts)[i] in Sections(Bundle(texts));
        SectionsDelimiterFree(Bundle(texts), Normalized(texts[i]));
        SplitLinesOneLine(texts[i] + "\n");
        SplitNonEmpty(texts[i] + "\n");
        LinesOfJoin(LinesOf(texts[i]));
      }
    }
  }

  lemma NormalizedSame(text: string)
    requires NewlineOnly(text)
    ensures Normalized(text) == text
  {
    JoinSplit(text);
  }

  /** The bundle of no sections is one empty section, not none. */
  lemma EmptyBundle()
    ensures Sections(Bundle([])) == [""]
  {
    SplitOneLine("");
    assert Bundle([]) == "" + "\n";
    StripAllSpace("");
    assert Cut([""], [], []) == Cut([""][1..], [] + [""], []);
  }

  // ---- _extract_filename ----

  const TAG := "FileName"

  /** re.match(r"#\s*FileName\s*=\s*(.+)", line), the group stripped; line is already stripped. */
  function FileNameIn(line: string): Option<string> {
    if line == "" || line[0] != '#' then None
    else
      var a := LStrip(line[1..]);
      if !(TAG <= a) then None
      else
        var b := LStrip(a[|TAG|..]);
        if b == "" || b[0] != '=' || b[1..] == "" then None else Some(Strip(b[1..]))
  }

  function FirstFileName(lines: seq<string>): string {
    if lines == [] then ""
    else match FileNameIn(Strip(lines[0])) case Some(n) => n case None => FirstFileName(lines[1..])
  }

  method ExtractFilename(section: string) returns (name: string)
    ensures name == FirstFileName(SplitLines(section))
  {
    hide SplitLines, Strip, FileNameIn;
    var lines := SplitLines(section);
    for i := 0 to |lines|
      invariant FirstFileName(lines) == FirstFileName(lines[i..])
    {
      assert lines[i..][1..] == lines[i + 1..];
      match FileNameIn(Strip(lines[i]))
      case Some(n) => return n;
      case None =>
    }
    return "";
  }

  /** The parts of a line that names a file. */
  predicate Naming(line: string, before: string, after: string, rest: string) {
    line == "#" + (before + ("FileName" + (after + ("=" + rest)))) && AllSpace(before) && AllSpace(after) && rest != ""
  }

  /** A line names a file exactly when it is "#", white space, "FileName", white space, "=" and some text, which
      stripped is the name. */
  lemma FileNameIff(line: string, name: string)
    ensures FileNameIn(line) == Some(name)
       <==> exists before, after, rest :: Naming(line, before, after, rest) && name == Strip(rest)
  {
    hide FileNameIn, Naming, Strip;
    if FileNameIn(line) == Some(name) {
      var before, after, rest := FileNameParts(line, name);
    }
    if before, after, rest :| Naming(line, before, after, rest) && name == Strip(rest) {
      NamingNames(line, before, after, rest);
    }
  }

  lemma FileNameSteps(line: string, name: string)
    requires FileNameIn(line) == Some(name)
    ensures line != "" && line[0] == '#'
    ensures var a := LStrip(line[1..]);
            TAG <= a && var b := LStrip(a[|TAG|..]); b != "" && b[0] == '=' && b[1..] != "" && name == Strip(b[1..])
  {
    hide LStrip, Strip;
  }

  lemma AfterPrefix(prefix: string, s: string)
    requires prefix <= s
    ensures s == prefix + s[|prefix|..]
  {
  }

  lemma FileNameParts(line: string, name: string) returns (before: string, after: string, rest: string)
    requires FileNameIn(line) == Some(name)
    ensures Naming(line, before, after, rest) && name == Strip(rest)
  {
    FileNameSteps(line, name);
    hide LStrip, Strip, IsSpace, AllSpace, FileNameIn;
    before := LStripParts(line[1..]);
    var a := LStrip(line[1..]);
    after := LStripParts(a[|TAG|..]);
    var b := LStrip(a[|TAG|..]);
    rest := b[1..];
    AfterPrefix("#", line);
    AfterPrefix("=", b);
    AfterPrefix(TAG, a);
  }

  lemma NamingNames(line: string, before: string, after: string, rest: string)
    requires Naming(line, before, after, rest)
    ensures FileNameIn(line) == Some(Strip(rest))
  {
    var b := "=" + rest;
    var a := "FileName" + (after + b);
    assert line[1..] == before + a;
    EqualsAndF();
    assert a[0] == 'F' && b[0] == '=' && b[1..] == rest;
    StripIndent(before, a);
    assert a[|TAG|..] == after + b && a[..|TAG|] == TAG;
    StripIndent(after, b);
    hide LStrip, Strip, IsSpace, AllSpace;
  }

  lemma EqualsAndF()
    ensures !IsSpace('F') && !IsSpace('=')
  {
  }

  lemma FileNameLine(name: string)
    requires name != "" && Trimmed(name)
    ensures FileNameIn(Strip("# FileName=" + name)) == Some(name)
  {
    var line := "# FileName=" + name;
    assert line[|line| - 1] == name[|name| - 1];
    TrimmedStrip(line);
    assert line[1..] == " FileName=" + name;
    LStripIs(line[1..], 1);
    assert line[1..][1..] == TAG + ("=" + name);
    var a := TAG + ("=" + name);
    assert a[|TAG|..] == "=" + name;
    LStripIs("=" + name, 0);
    assert ("=" + name)[1..] == name;
    TrimmedStrip(name);
  }
}
