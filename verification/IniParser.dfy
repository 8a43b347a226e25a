/** _parse_ini_multi (bundle_parser.py): INI text to Section.Key -> values. */
module IniParser {
  import opened Text

  type Fields = map<string, seq<string>>

  datatype State = State(section: string, fields: Fields)

  const START := State("", map[])

  function Values(f: Fields, key: string): seq<string> {
    if key in f then f[key] else []
  }

  function ReadLine(st: State, line: string): State {
    var s := Strip(line);
    if s == "" || s[0] == '#' then st
    else if s[0] == '[' && s[|s| - 1] == ']' then st.(section := s[1..|s| - 1])
    else
      var i := IndexOf(s, '=');
      if i == |s| then st
      else
        var key := st.section + "." + Strip(s[..i]);
        st.(fields := st.fields[key := Values(st.fields, key) + [Strip(s[i + 1..])]])
  }

  function ReadLines(st: State, lines: seq<string>): State
    decreases |lines|
  {
    if lines == [] then st else ReadLines(ReadLine(st, lines[0]), lines[1..])
  }

  function Read(st: State, text: string): State {
    ReadLines(st, SplitLines(text))
  }

  method ParseIniMulti(content: string) returns (result: Fields)
    ensures result == Read(START, content).fields
  {
    hide SplitLines, Strip, IndexOf;
    result := map[];
    var currentSection := "";
    var lines := SplitLines(content);
    for i := 0 to |lines|
      invariant ReadLines(START, lines) == ReadLines(State(currentSection, result), lines[i..])
    {
      assert lines[i..][1..] == lines[i + 1..];
      ghost var before := State(currentSection, result);
      var stripped := Strip(lines[i]);
      if stripped == "" || stripped[0] == '#' {
        continue;
      }
      if stripped[0] == '[' && stripped[|stripped| - 1] == ']' {
        currentSection := stripped[1..|stripped| - 1];
        continue;
      }
      var eq := IndexOf(stripped, '=');
      if eq < |stripped| {
        var fullKey := currentSection + "." + Strip(stripped[..eq]);
        if fullKey !in result {
          result := result[fullKey := []];
        }
        result := result[fullKey := result[fullKey] + [Strip(stripped[eq + 1..])]];
      }
      assert State(currentSection, result) == ReadLine(before, lines[i]);
    }
  }

  // ---- what a line says ----

  /** A line reads as what is left of it without the white space around it. */
  lemma StrippedReads(st: State, left: string, s: string, right: string)
    requires AllSpace(left) && AllSpace(right) && Trimmed(s)
    ensures ReadLine(st, left + s + right) == ReadLine(st, s)
  {
    StripPadded(left, s, right);
    TrimmedStrip(s);
    hide Strip, IndexOf;
  }

  predicate IsHeader(s: string) {
    s != "" && s[0] == '[' && s[|s| - 1] == ']'
  }

  /** A key and a value with white space around them, where the whole is no comment and no header, adds the value
      to those of the section's key; the first "=" ends the key. */
  lemma PairReads(st: State, key: string, gap: string, indent: string, value: string)
    requires Trimmed(key) && Trimmed(value) && '=' !in key && key != "" && value != "" && key[0] != '#'
    requires AllSpace(gap) && AllSpace(indent) && !IsHeader(key + (gap + ("=" + (indent + value))))
    ensures ReadLine(st, key + (gap + ("=" + (indent + value))))
         == (var full := st.section + "." + key;
             st.(fields := st.fields[full := Values(st.fields, full) + [value]]))
  {
    var s := key + (gap + ("=" + (indent + value)));
    hide Strip, IndexOf, Trimmed, AllSpace, ReadLine, IsHeader;
    PairEnds(key, gap, indent, value);
    TrimmedStrip(s);
    PairCut(key, gap, indent, value);
    NoSpace();
    StripPadded("", key, gap);
    StripPadded(indent, value, "");
    assert "" + key + gap == key + gap && indent + value + "" == indent + value;
    ReadSplit(st, s, IndexOf(s, '='));
  }

  lemma NoSpace()
    ensures AllSpace("")
  {
  }

  lemma ReadSplit(st: State, s: string, i: nat)
    requires s == Strip(s) && s != "" && s[0] != '#' && !IsHeader(s) && i == IndexOf(s, '=') && i < |s|
    ensures ReadLine(st, s)
         == (var full := st.section + "." + Strip(s[..i]);
             st.(fields := st.fields[full := Values(st.fields, full) + [Strip(s[i + 1..])]]))
  {
    hide Strip, IndexOf, Values;
  }

  /** A blank line, a comment, and a line that has no "=" and is no header, say nothing. */
  lemma OtherReads(st: State, s: string)
    requires Trimmed(s) && (s == "" || s[0] == '#' || ('=' !in s && !IsHeader(s)))
    ensures ReadLine(st, s) == st
  {
    TrimmedStrip(s);
    hide Strip;
    assert forall j :: 0 <= j < |s| ==> s[j] in s;
  }

  // ---- compositionality ----

  lemma {:induction false} ReadLinesAppend(st: State, xs: seq<string>, ys: seq<string>)
    ensures ReadLines(st, xs + ys) == ReadLines(ReadLines(st, xs), ys)
    decreases |xs|
  {
    hide ReadLine;
    if xs == [] {
      assert xs + ys == ys;
    } else {
      assert (xs + ys)[1..] == xs[1..] + ys;
      ReadLinesAppend(ReadLine(st, xs[0]), xs[1..], ys);
    }
  }

  /** Parsing two texts in a row is parsing the second from where the first ended. */
  lemma ReadConcat(st: State, a: string, b: string)
    ensures Read(st, a + "\n" + b) == Read(Read(st, a + "\n"), b)
  {
    SplitLinesAtNewline(a, b);
    ReadLinesAppend(st, SplitLines(a + "\n"), SplitLines(b));
  }

  // ---- printed documents ----

  datatype Item = Header(name: string) | Pair(key: string, value: string) | Comment(text: string) | Blank

  function Line(x: Item): string {
    match x
    case Header(name) => "[" + name + "]"
    case Pair(key, value) => key + "=" + value
    case Comment(text) => "#" + text
    case Blank => ""
  }

  /** Items that stand on one line and read as what they are. */
  predicate Printable(x: Item) {
    OneLine(Line(x)) &&
    match x
    case Pair(key, value) =>
      && Trimmed(key) && Trimmed(value) && '=' !in key && (key == "" || key[0] != '#')
      && !(key != "" && key[0] == '[' && value != "" && value[|value| - 1] == ']')
    case _ => true
  }

  function Lines(doc: seq<Item>): (r: seq<string>)
    ensures |r| == |doc|
  {
    seq(|doc|, i requires 0 <= i < |doc| => Line(doc[i]))
  }

  function PrintDoc(doc: seq<Item>): string {
    Terminated(Lines(doc))
  }

  /** The pairs of a document with the section each stands in. */
  datatype Entry = Entry(section: string, key: string, value: string)

  function Entries(section: string, doc: seq<Item>): seq<Entry>
    decreases |doc|
  {
    if doc == [] then []
    else match doc[0]
      case Header(name) => Entries(name, doc[1..])
      case Pair(key, value) => [Entry(section, key, value)] + Entries(section, doc[1..])
      case _ => Entries(section, doc[1..])
  }

  function FullKey(e: Entry): string {
    e.section + "." + e.key
  }

  /** Values in order of all entries with that dotted name. */
  function Collect(es: seq<Entry>, fullKey: string): seq<string> {
    if es == [] then []
    else (if FullKey(es[0]) == fullKey then [es[0].value] else []) + Collect(es[1..], fullKey)
  }

  /** Values in order of the entries of that section and key. */
  function ValuesOf(es: seq<Entry>, section: string, key: string): seq<string> {
    if es == [] then []
    else (if es[0].section == section && es[0].key == key then [es[0].value] else []) + ValuesOf(es[1..], section, key)
  }

  lemma PairLine(st: State, key: string, value: string)
    requires Printable(Pair(key, value))
    ensures ReadLine(st, Line(Pair(key, value))) == (var full := st.section + "." + key;
              st.(fields := st.fields[full := Values(st.fields, full) + [value]]))
  {
    var s := key + "=" + value;
    PairTrimmed(key, value);
    TrimmedStrip(s);
    assert s[|key|] == '=';
    IndexOfUnique(s, '=', |key|);
    assert s[..|key|] == key && s[|key| + 1..] == value;
    TrimmedStrip(key);
    TrimmedStrip(value);
    hide Strip, IndexOf, OneLine, Trimmed;
    assert s[0] == (if key == "" then '=' else key[0]);
    assert s[|s| - 1] == (if value == "" then '=' else value[|value| - 1]);
  }

  lemma PairTrimmed(key: string, value: string)
    requires Trimmed(key) && Trimmed(value)
    ensures Trimmed(key + "=" + value)
  {
    var s := key + "=" + value;
    assert s[0] == (if key == "" then '=' else key[0]);
    assert s[|s| - 1] == (if value == "" then '=' else value[|value| - 1]);
  }

  lemma HeaderLine(st: State, name: string)
    ensures ReadLine(st, "[" + name + "]") == st.(section := name)
  {
    var s := "[" + name + "]";
    TrimmedStrip(s);
    assert s[1..|s| - 1] == name;
  }

  lemma CommentLine(st: State, text: string)
    ensures ReadLine(st, "#" + text) == st
  {
    var s := "#" + text;
    var hi := NonSpaceEnd(s, |s|);
    assert s[0] == '#';
    StripIs(s, 0, hi);
    hide Strip;
    assert s[0..hi][0] == '#';
  }

  /** What an item does to the parser's state. */
  function Apply(st: State, x: Item): State {
    match x
    case Header(name) => st.(section := name)
    case Pair(key, value) =>
      var full := st.section + "." + key;
      st.(fields := st.fields[full := Values(st.fields, full) + [value]])
    case _ => st
  }

  lemma LineApplies(st: State, x: Item)
    requires Printable(x)
    ensures ReadLine(st, Line(x)) == Apply(st, x)
  {
    match x
    case Header(name) => HeaderLine(st, name);
    case Pair(key, value) => PairLine(st, key, value);
    case Comment(text) => CommentLine(st, text);
    case Blank => TrimmedStrip("");
  }

  predicate AllPrintable(doc: seq<Item>) {
    forall i :: 0 <= i < |doc| ==> Printable(doc[i])
  }

  lemma LinesCons(doc: seq<Item>)
    requires doc != [] && AllPrintable(doc)
    ensures Lines(doc) != [] && Lines(doc)[0] == Line(doc[0]) && Lines(doc)[1..] == Lines(doc[1..])
    ensures Printable(doc[0]) && AllPrintable(doc[1..])
  {
  }

  /** Reading a printed document appends to every dotted name the values the document gives it. */
  lemma {:induction false} ReadPrinted(st: State, doc: seq<Item>, key: string)
    requires AllPrintable(doc)
    ensures Values(ReadLines(st, Lines(doc)).fields, key)
            == Values(st.fields, key) + Collect(Entries(st.section, doc), key)
    decreases |doc|
  {
    if doc == [] {
      assert Lines(doc) == [];
    } else {
      LinesCons(doc);
      LineApplies(st, doc[0]);
      ApplyCollects(st, doc, key);
      assert ReadLines(st, Lines(doc)) == ReadLines(Apply(st, doc[0]), Lines(doc[1..]));
      hide *;
      ReadPrinted(Apply(st, doc[0]), doc[1..], key);
    }
  }

  lemma ApplyCollects(st: State, doc: seq<Item>, key: string)
    requires doc != []
    ensures var next := Apply(st, doc[0]);
            Values(next.fields, key) + Collect(Entries(next.section, doc[1..]), key)
            == Values(st.fields, key) + Collect(Entries(st.section, doc), key)
  {
    if doc[0].Pair? {
      var e, es := Entry(st.section, doc[0].key, doc[0].value), Entries(st.section, doc[1..]);
      CollectCons(e, es, key);
      hide Collect;
      assert Entries(st.section, doc) == [e] + es;
      hide Entries;
      var vs, cs := Values(st.fields, key), Collect(es, key);
      assert vs + [e.value] + cs == vs + ([e.value] + cs);
      assert [] + cs == cs;
    }
  }

  lemma CollectCons(e: Entry, es: seq<Entry>, key: string)
    ensures Collect([e] + es, key) == (if FullKey(e) == key then [e.value] else []) + Collect(es, key)
  {
    assert ([e] + es)[1..] == es;
  }

  /** Parsing printed text gives, for every dotted name, the in-order list of its values: repeated
      keys and re-opened sections merge. */
  lemma ParsePrinted(doc: seq<Item>, key: string)
    requires AllPrintable(doc)
    ensures Values(Read(START, PrintDoc(doc)).fields, key) == Collect(Entries("", doc), key)
  {
    hide *;
    ReadPrintDoc(doc, key);
    ReadPrinted(START, doc, key);
    assert [] + Collect(Entries("", doc), key) == Collect(Entries("", doc), key);
  }

  lemma ReadPrintDoc(doc: seq<Item>, key: string)
    requires AllPrintable(doc)
    ensures Read(START, PrintDoc(doc)) == ReadLines(START, Lines(doc)) && START.section == ""
            && Values(START.fields, key) == []
  {
    LinesOneLine(doc);
    SplitTerminated(Lines(doc));
  }

  lemma LinesOneLine(doc: seq<Item>)
    requires AllPrintable(doc)
    ensures forall i :: 0 <= i < |doc| ==> OneLine(Lines(doc)[i])
  {
    hide OneLine, Line;
    forall i | 0 <= i < |doc| ensures OneLine(Lines(doc)[i]) {
      assert Printable(doc[i]);
    }
  }

  // ---- dotted names ----

  /** Two different section and key pairs of the document have one dotted name. */
  ghost predicate Collision(es: seq<Entry>) {
    exists i, j :: 0 <= i < |es| && 0 <= j < |es| && FullKey(es[i]) == FullKey(es[j])
                   && (es[i].section != es[j].section || es[i].key != es[j].key)
  }

  lemma {:induction false} ValuesWithin(es: seq<Entry>, section: string, key: string)
    ensures |ValuesOf(es, section, key)| <= |Collect(es, section + "." + key)|
    ensures |ValuesOf(es, section, key)| == |Collect(es, section + "." + key)| ==>
              ValuesOf(es, section, key) == Collect(es, section + "." + key)
              && forall i :: 0 <= i < |es| && FullKey(es[i]) == section + "." + key ==>
                es[i].section == section && es[i].key == key
  {
    if es != [] {
      ValuesWithin(es[1..], section, key);
      assert forall i :: 1 <= i < |es| ==> es[i] == es[1..][i - 1];
    }
  }

  lemma {:induction false} ValuesSame(es: seq<Entry>, section: string, key: string)
    requires forall i :: 0 <= i < |es| && FullKey(es[i]) == section + "." + key ==>
               es[i].section == section && es[i].key == key
    ensures ValuesOf(es, section, key) == Collect(es, section + "." + key)
  {
    if es != [] {
      assert forall i :: 0 <= i < |es| - 1 ==> es[1..][i] == es[i + 1];
      ValuesSame(es[1..], section, key);
    }
  }

  /** Each section and key of a printed document is read back with exactly its own values, in order,
      iff no two of them have the same dotted name. */
  lemma ParseSeparatesIff(doc: seq<Item>)
    requires AllPrintable(doc)
    ensures var es := Entries("", doc);
            var fields := Read(START, PrintDoc(doc)).fields;
            (forall i :: 0 <= i < |es| ==> Values(fields, FullKey(es[i])) == ValuesOf(es, es[i].section, es[i].key))
            <==> !Collision(es)
  {
    var es := Entries("", doc);
    var fields := Read(START, PrintDoc(doc)).fields;
    forall i | 0 <= i < |es|
      ensures Values(fields, FullKey(es[i])) == ValuesOf(es, es[i].section, es[i].key) <==>
              forall j :: 0 <= j < |es| && FullKey(es[j]) == FullKey(es[i]) ==>
                es[j].section == es[i].section && es[j].key == es[i].key
    {
      ParsePrinted(doc, FullKey(es[i]));
      ValuesWithin(es, es[i].section, es[i].key);
      if forall j :: 0 <= j < |es| && FullKey(es[j]) == FullKey(es[i]) ==>
        es[j].section == es[i].section && es[j].key == es[i].key {
        ValuesSame(es, es[i].section, es[i].key);
      }
    }
  }

  /** Section names without a dot never collide. */
  lemma NoDotNoCollision(es: seq<Entry>)
    requires forall i :: 0 <= i < |es| ==> '.' !in es[i].section
    ensures !Collision(es)
  {
    forall i, j | 0 <= i < |es| && 0 <= j < |es| && FullKey(es[i]) == FullKey(es[j])
      ensures es[i].section == es[j].section && es[i].key == es[j].key
    {
      var f := FullKey(es[i]);
      var m, n := |es[i].section|, |es[j].section|;
      assert f[m] == '.' && f[n] == '.';
      IndexOfUnique(f, '.', m);
      IndexOfUnique(f, '.', n);
      assert f[..m] == es[i].section && f[..n] == es[j].section;
      assert f[m + 1..] == es[i].key && f[n + 1..] == es[j].key;
    }
  }
}
