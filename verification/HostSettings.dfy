/** Persisted sysctl settings (host_settings.py): reading, updating and printing the settings file. */
module HostSettings {
  import opened Text

  type Settings = map<string, string>

  // ---- sorted(managed.items()): keys are unique, so they decide ----

  predicate Less(a: string, b: string) {
    b != "" && (a == "" || a[0] < b[0] || (a[0] == b[0] && Less(a[1..], b[1..])))
  }

  /** The texts agree up to n, where a ends or has the smaller character. */
  predicate SmallerAt(a: string, b: string, n: nat) {
    n <= |a| && n < |b| && a[..n] == b[..n] && (n == |a| || a[n] < b[n])
  }

  lemma FirstAgrees(a: string, b: string, n: nat)
    ensures SmallerAt(a, b, n) && n > 0 ==> a != "" && a[0] == b[0]
  {
    if SmallerAt(a, b, n) && n > 0 { assert a[..n][0] == a[0] && b[..n][0] == b[0]; }
  }

  /** Python's order on str. */
  lemma {:induction false} LessIff(a: string, b: string)
    ensures Less(a, b) <==> exists n: nat :: SmallerAt(a, b, n)
  {
    if a != "" && b != "" && a[0] == b[0] {
      LessIff(a[1..], b[1..]);
      if n: nat :| SmallerAt(a[1..], b[1..], n) {
        assert a[..n + 1] == [a[0]] + a[1..][..n] && b[..n + 1] == [b[0]] + b[1..][..n];
        assert SmallerAt(a, b, n + 1);
      }
      if n: nat :| SmallerAt(a, b, n) {
        if n > 0 {
          assert a[1..][..n - 1] == a[..n][1..] && b[1..][..n - 1] == b[..n][1..];
          assert SmallerAt(a[1..], b[1..], n - 1);
        }
      }
    } else if b != "" {
      if a == "" || a[0] < b[0] { assert SmallerAt(a, b, 0); }
      if n: nat :| SmallerAt(a, b, n) {
        FirstAgrees(a, b, n);
      }
    }
  }

  lemma {:induction false} LessIrreflexive(a: string)
    ensures !Less(a, a)
  {
    if a != "" { LessIrreflexive(a[1..]); }
  }

  lemma {:induction false} LessTotal(a: string, b: string)
    ensures Less(a, b) || Less(b, a) || a == b
    ensures !(Less(a, b) && Less(b, a))
  {
    if a != "" && b != "" {
      LessTotal(a[1..], b[1..]);
      if a[0] == b[0] && a[1..] == b[1..] { assert a == [a[0]] + a[1..] && b == [b[0]] + b[1..]; }
    }
  }

  lemma {:induction false} LessTransitive(a: string, b: string, c: string)
    requires Less(a, b) && Less(b, c)
    ensures Less(a, c)
  {
    if a != "" && a[0] == b[0] == c[0] { LessTransitive(a[1..], b[1..], c[1..]); }
  }

  predicate Ascending(keys: seq<string>) {
    forall i, j :: 0 <= i < j < |keys| ==> Less(keys[i], keys[j])
  }

  ghost predicate Lists(keys: seq<string>, s: set<string>) {
    forall k :: k in keys <==> k in s
  }

  /** Only one sequence lists a set in ascending order. */
  lemma {:induction false} AscendingUnique(xs: seq<string>, ys: seq<string>)
    requires Ascending(xs) && Ascending(ys) && forall k :: k in xs <==> k in ys
    ensures xs == ys
  {
    assert xs != [] ==> xs[0] in xs;
    assert ys != [] ==> ys[0] in ys;
    if xs != [] && ys != [] {
      FirstLeast(xs, ys[0]);
      FirstLeast(ys, xs[0]);
      LessTotal(xs[0], ys[0]);
      hide Less;
      var xs', ys' := xs[1..], ys[1..];
      forall k ensures k in xs' <==> k in ys' {
        TailMembers(xs, k);
        TailMembers(ys, k);
      }
      AscendingUnique(xs', ys');
      assert xs == [xs[0]] + xs' && ys == [ys[0]] + ys';
    }
  }

  lemma FirstLeast(xs: seq<string>, k: string)
    requires Ascending(xs) && k in xs
    ensures k == xs[0] || Less(xs[0], k)
  {
  }

  lemma TailMembers(xs: seq<string>, k: string)
    requires Ascending(xs) && xs != []
    ensures k in xs[1..] <==> k in xs && k != xs[0]
  {
    LessIrreflexive(xs[0]);
    hide Less;
    if k in xs[1..] {
      var i :| 0 <= i < |xs| - 1 && xs[1..][i] == k;
      assert xs[i + 1] == k && Less(xs[0], xs[i + 1]);
    }
  }

  method SortKeys(s: set<string>) returns (keys: seq<string>)
    ensures Ascending(keys) && Lists(keys, s)
  {
    var todo := s;
    keys := [];
    while todo != {}
      invariant todo <= s && Ascending(keys) && Lists(keys, s - todo)
      decreases |todo|
    {
      var k :| k in todo;
      keys := InsertKey(keys, k);
      todo := todo - {k};
    }
  }

  method InsertKey(keys: seq<string>, k: string) returns (r: seq<string>)
    requires Ascending(keys) && k !in keys
    ensures Ascending(r) && forall x :: x in r <==> x in keys || x == k
  {
    hide Less;
    var i := 0;
    while i < |keys| && Less(keys[i], k)
      invariant i <= |keys| && forall j :: 0 <= j < i ==> Less(keys[j], k)
    {
      i := i + 1;
    }
    Inserted(keys, i, k);
    r := keys[..i] + [k] + keys[i..];
  }

  lemma InsertedMembers(keys: seq<string>, i: nat, k: string)
    requires i <= |keys|
    ensures forall x :: x in keys[..i] + [k] + keys[i..] <==> x in keys || x == k
  {
    assert keys == keys[..i] + keys[i..];
  }

  lemma InsertedAscends(keys: seq<string>, i: nat, k: string)
    requires Ascending(keys) && i <= |keys|
    requires (forall j :: 0 <= j < i ==> Less(keys[j], k)) && forall j :: i <= j < |keys| ==> Less(k, keys[j])
    ensures Ascending(keys[..i] + [k] + keys[i..])
  {
    hide Less;
    var r := keys[..i] + [k] + keys[i..];
    assert forall j :: 0 <= j < |r| ==> r[j] == if j < i then keys[j] else if j == i then k else keys[j - 1];
  }

  lemma Inserted(keys: seq<string>, i: nat, k: string)
    requires Ascending(keys) && i <= |keys| && k !in keys
    requires (forall j :: 0 <= j < i ==> Less(keys[j], k)) && (i < |keys| ==> !Less(keys[i], k))
    ensures var r := keys[..i] + [k] + keys[i..]; Ascending(r) && forall x :: x in r <==> x in keys || x == k
  {
    hide Less;
    forall j | i <= j < |keys| ensures Less(k, keys[j]) {
      LessTotal(k, keys[i]);
      if j > i { LessTransitive(k, keys[i], keys[j]); }
    }
    InsertedAscends(keys, i, k);
    InsertedMembers(keys, i, k);
  }

  // ---- reading and printing ----

  function ReadLine(m: Settings, line: string): Settings {
    var s := Strip(line);
    if s == "" || s[0] == '#' then m
    else
      var i := IndexOf(s, '=');
      if i == |s| then m else m[Strip(s[..i]) := Strip(s[i + 1..])]
  }

  // ---- what a line says ----

  /** A line says what is left of it without the white space around it. */
  lemma StrippedReads(m: Settings, left: string, s: string, right: string)
    requires AllSpace(left) && AllSpace(right) && Trimmed(s)
    ensures ReadLine(m, left + s + right) == ReadLine(m, s)
  {
    StripPadded(left, s, right);
    TrimmedStrip(s);
    hide Strip, IndexOf;
  }

  /** A key and a value with white space around them sets the key; the first "=" ends it. */
  lemma PairReads(m: Settings, key: string, gap: string, indent: string, value: string)
    requires Trimmed(key) && Trimmed(value) && '=' !in key && key != "" && value != "" && key[0] != '#'
    requires AllSpace(gap) && AllSpace(indent)
    ensures ReadLine(m, key + (gap + ("=" + (indent + value)))) == m[key := value]
  {
    var s := key + (gap + ("=" + (indent + value)));
    hide Strip, IndexOf, Trimmed, AllSpace, ReadLine;
    PairEnds(key, gap, indent, value);
    TrimmedStrip(s);
    PairCut(key, gap, indent, value);
    StripPadded("", key, gap);
    StripPadded(indent, value, "");
    NoPadding(key + gap);
    NoPadding(indent + value);
    NoSpace();
    assert "" + key + gap == key + gap;
    ReadSplit(m, s, s, IndexOf(s, '='));
  }

  lemma NoSpace()
    ensures AllSpace("")
  {
  }

  /** A blank line, a comment, and a line without "=", say nothing. */
  lemma OtherReads(m: Settings, s: string)
    requires Trimmed(s) && (s == "" || s[0] == '#' || '=' !in s)
    ensures ReadLine(m, s) == m
  {
    TrimmedStrip(s);
    hide Strip;
    assert forall j :: 0 <= j < |s| ==> s[j] in s;
  }

  function ReadLines(m: Settings, lines: seq<string>): Settings
    decreases |lines|
  {
    if lines == [] then m else ReadLines(ReadLine(m, lines[0]), lines[1..])
  }

  function Read(text: string): Settings {
    ReadLines(map[], SplitLines(text))
  }

  /** The first line of the file. Long literals are put together from short pieces here and in the table of
      settings: what holds of the pieces is cheap to prove and carries over to the whole. */
  const BANNER := "# Managed " + ("by " + ("quadletman " + ("\U{2014} do " + ("not edit " + "manually"))))

  function SettingLine(k: string, v: string): string {
    k + " = " + v
  }

  function SettingLines(keys: seq<string>, m: Settings): (r: seq<string>)
    requires forall k :: k in keys ==> k in m
    ensures |r| == |keys|
  {
    seq(|keys|, i requires 0 <= i < |keys| => SettingLine(keys[i], m[keys[i]]))
  }

  /** The file for m: the banner, then one line per key in order. */
  ghost predicate Printed(m: Settings, text: string) {
    exists keys :: Ascending(keys) && Lists(keys, m.Keys) && text == Terminated([BANNER] + SettingLines(keys, m))
  }

  lemma PrintedUnique(m: Settings, s: string, t: string)
    requires Printed(m, s) && Printed(m, t)
    ensures s == t
  {
    var xs :| Ascending(xs) && Lists(xs, m.Keys) && s == Terminated([BANNER] + SettingLines(xs, m));
    var ys :| Ascending(ys) && Lists(ys, m.Keys) && t == Terminated([BANNER] + SettingLines(ys, m));
    AscendingUnique(xs, ys);
  }

  /** What is on disk before a change. */
  datatype File = Absent | Unreadable(text: string) | Readable(text: string)

  /** The settings _persist starts from: none when the file is missing or not permitted. */
  function Known(f: File): Settings {
    if f.Readable? then Read(f.text) else map[]
  }

  method ReadFile(f: File) returns (managed: Settings)
    ensures managed == Known(f)
  {
    hide SplitLines, Strip, IndexOf;
    managed := map[];
    if f.Absent? {
      return;
    }
    var text := if f.Readable? then f.text else "";
    var lines := SplitLines(text);
    EmptyLines();
    for i := 0 to |lines|
      invariant ReadLines(map[], lines) == ReadLines(managed, lines[i..])
    {
      assert lines[i..][1..] == lines[i + 1..];
      var line := Strip(lines[i]);
      if line == "" || line[0] == '#' {
        continue;
      }
      var eq := IndexOf(line, '=');
      if eq < |line| {
        managed := managed[Strip(line[..eq]) := Strip(line[eq + 1..])];
      }
    }
  }

  lemma EmptyLines()
    ensures SplitLines("") == [] && ReadLines(map[], []) == map[]
  {
  }

  /** _persist: the new text of the file */
  method Persist(f: File, key: string, value: string) returns (text: string)
    ensures Printed(Known(f)[key := value], text)
  {
    hide Known, Less, Terminated;
    var managed := ReadFile(f);
    managed := managed[key := value];
    var keys := SortKeys(managed.Keys);
    var lines: seq<string> := [];
    for i := 0 to |keys|
      invariant lines == SettingLines(keys, managed)[..i]
    {
      lines := lines + [keys[i] + " = " + managed[keys[i]]];
    }
    assert lines == SettingLines(keys, managed);
    text := Terminated([BANNER] + lines);
  }

  // ---- reading back ----

  predicate GoodKey(k: string) {
    Trimmed(k) && OneLine(k) && '=' !in k && (k == "" || k[0] != '#')
  }

  predicate GoodValue(v: string) {
    Trimmed(v) && OneLine(v)
  }

  ghost predicate WellFormed(m: Settings) {
    forall k :: k in m ==> GoodKey(k) && GoodValue(m[k])
  }

  lemma ReadLineWellFormed(m: Settings, line: string)
    requires WellFormed(m) && OneLine(line)
    ensures WellFormed(ReadLine(m, line))
  {
    var s := Strip(line);
    StripIsTrimmed(line);
    if s != "" && s[0] != '#' {
      var i := IndexOf(s, '=');
      if i < |s| {
        SliceOneLine(s, 0, i);
        SliceOneLine(s, i + 1, |s|);
        StripIsTrimmed(s[..i]);
        StripIsTrimmed(s[i + 1..]);
        KeyIsGood(s, i);
      }
    }
  }

  lemma SliceOneLine(s: string, lo: nat, hi: nat)
    requires OneLine(s) && lo <= hi <= |s|
    ensures OneLine(s[lo..hi])
  {
  }

  /** The text in front of the first "=" of a trimmed line makes a key that can be read back. */
  lemma KeyIsGood(s: string, i: nat)
    requires Trimmed(s) && s != "" && s[0] != '#' && i < |s| && forall j :: 0 <= j < i ==> s[j] != '='
    ensures var k := Strip(s[..i]); '=' !in k && (k == "" || k[0] != '#')
  {
    var t := s[..i];
    var lo, hi := NonSpaceFrom(t, 0), NonSpaceEnd(t, |t|);
    if lo < hi {
      StripIs(t, lo, hi);
      assert i > 0 ==> t[0] == s[0];
      assert forall j :: 0 <= j < hi - lo ==> t[lo..hi][j] == s[lo + j];
    } else {
      StripAllSpace(t);
    }
  }

  lemma {:induction false} ReadWellFormed(m: Settings, lines: seq<string>)
    requires WellFormed(m) && forall i :: 0 <= i < |lines| ==> OneLine(lines[i])
    ensures WellFormed(ReadLines(m, lines))
    decreases |lines|
  {
    hide OneLine, WellFormed, ReadLine;
    if lines != [] {
      ReadLineWellFormed(m, lines[0]);
      ReadWellFormed(ReadLine(m, lines[0]), lines[1..]);
    }
  }

  lemma KnownWellFormed(f: File)
    ensures WellFormed(Known(f))
  {
    if f.Readable? {
      SplitLinesOneLine(f.text);
      ReadWellFormed(map[], SplitLines(f.text));
    }
  }

  /** The stripped form of a printed line. */
  function Stripped(k: string, v: string): string {
    (if k == "" then "=" else k + " =") + (if v == "" then "" else " " + v)
  }

  lemma StripSettingLine(k: string, v: string)
    requires Trimmed(k) && Trimmed(v)
    ensures Strip(SettingLine(k, v)) == Stripped(k, v)
  {
    var s := Stripped(k, v);
    var left := if k == "" then " " else "";
    var right := if v == "" then " " else "";
    assert s[0] == (if k == "" then '=' else k[0]);
    assert s[|s| - 1] == (if v == "" then '=' else v[|v| - 1]);
    assert SettingLine(k, v) == left + s + right;
    StripPadded(left, s, right);
  }

  lemma PrintedLineReads(m: Settings, k: string, v: string)
    requires GoodKey(k) && GoodValue(v)
    ensures ReadLine(m, SettingLine(k, v)) == m[k := v]
  {
    assert Trimmed(k) && Trimmed(v);
    hide *;
    var front, back := if k == "" then "" else k + " ", if v == "" then "" else " " + v;
    StripSettingLine(k, v);
    StrippedParts(k, v, front, back);
    StrippedStart(k, v);
    PartsStrip(k, v);
    ReadSplit(m, SettingLine(k, v), Stripped(k, v), IndexOf(Stripped(k, v), '='));
  }

  lemma PartsStrip(k: string, v: string)
    requires Trimmed(k) && Trimmed(v)
    ensures Strip(if k == "" then "" else k + " ") == k && Strip(if v == "" then "" else " " + v) == v
  {
    assert AllSpace("") && AllSpace(" ");
    hide *;
    TrimmedStrip("");
    StripPadded("", k, " ");
    StripPadded(" ", v, "");
    NoPadding(k + " ");
    NoPadding(" " + v);
    assert "" + k + " " == "" + (k + " ");
  }

  lemma NoPadding(s: string)
    ensures "" + s == s && s + "" == s
  {
  }

  lemma ReadSplit(m: Settings, line: string, s: string, i: nat)
    requires s == Strip(line) && s != "" && s[0] != '#' && i == IndexOf(s, '=') && i < |s|
    ensures ReadLine(m, line) == m[Strip(s[..i]) := Strip(s[i + 1..])]
  {
  }

  lemma StrippedStart(k: string, v: string)
    requires k == "" || k[0] != '#'
    ensures Stripped(k, v) != "" && Stripped(k, v)[0] != '#'
  {
    var s := Stripped(k, v);
    assert s[0] == (if k == "" then '=' else k[0]);
  }

  lemma StrippedParts(k: string, v: string, front: string, back: string)
    requires '=' !in k
    requires front == (if k == "" then "" else k + " ") && back == (if v == "" then "" else " " + v)
    ensures var s := Stripped(k, v);
            var i := IndexOf(s, '=');
            i < |s| && s[..i] == front && s[i + 1..] == back
  {
    var s := Stripped(k, v);
    assert s == front + "=" + back;
    assert forall j :: 0 <= j < |k| ==> k[j] in k;
    assert forall j :: 0 <= j < |front| ==> s[j] == front[j] != '=';
    IndexOfUnique(s, '=', |front|);
  }

  lemma OneLineConcat(a: string, b: string)
    requires OneLine(a) && OneLine(b)
    ensures OneLine(a + b)
  {
  }

  lemma BannerOneLine()
    ensures OneLine(BANNER)
  {
    OneLineConcat("not edit ", "manually");
    OneLineConcat("\U{2014} do ", "not edit " + "manually");
    OneLineConcat("quadletman ", "\U{2014} do " + ("not edit " + "manually"));
    OneLineConcat("by ", "quadletman " + ("\U{2014} do " + ("not edit " + "manually")));
    OneLineConcat("# Managed ", "by " + ("quadletman " + ("\U{2014} do " + ("not edit " + "manually"))));
  }

  lemma CommentReads(m: Settings, line: string)
    requires line != "" && line[0] == '#'
    ensures ReadLine(m, line) == m
  {
    var hi := NonSpaceEnd(line, |line|);
    StripIs(line, 0, hi);
    hide Strip;
    assert line[0..hi][0] == '#';
  }

  lemma BannerReads(m: Settings)
    ensures ReadLine(m, BANNER) == m && OneLine(BANNER)
  {
    BannerOneLine();
    hide OneLine, ReadLine;
    assert BANNER[0] == '#';
    CommentReads(m, BANNER);
  }

  lemma PrintedLinesOneLine(keys: seq<string>, m: Settings)
    requires WellFormed(m) && forall k :: k in keys ==> k in m
    ensures forall i :: 0 <= i < |keys| ==> OneLine(SettingLines(keys, m)[i])
  {
    forall i | 0 <= i < |keys| ensures OneLine(SettingLines(keys, m)[i]) {
      assert keys[i] in keys;
      assert GoodKey(keys[i]) && GoodValue(m[keys[i]]);
    }
  }

  function Restrict(m: Settings, keys: seq<string>): Settings {
    map k | k in m && k in keys :: m[k]
  }

  /** Reading the lines of some keys of m gives m restricted to them. */
  lemma {:induction false} PrintedLinesRead(r: Settings, keys: seq<string>, m: Settings)
    requires WellFormed(m) && forall k :: k in keys ==> k in m
    ensures ReadLines(r, SettingLines(keys, m)) == r + Restrict(m, keys)
    decreases |keys|
  {
    if keys == [] {
      assert Restrict(m, keys) == map[];
    } else {
      var k, rest := keys[0], keys[1..];
      assert GoodKey(k) && GoodValue(m[k]);
      PrintedLineReads(r, k, m[k]);
      SettingLinesCons(keys, m);
      assert ReadLines(r, SettingLines(keys, m)) == ReadLines(r[k := m[k]], SettingLines(rest, m));
      hide *;
      PrintedLinesRead(r[k := m[k]], rest, m);
      RestrictCons(r, keys, m);
    }
  }

  lemma SettingLinesCons(keys: seq<string>, m: Settings)
    requires keys != [] && forall k :: k in keys ==> k in m
    ensures SettingLines(keys, m) != [] && SettingLines(keys, m)[0] == SettingLine(keys[0], m[keys[0]])
    ensures SettingLines(keys, m)[1..] == SettingLines(keys[1..], m)
  {
    hide SettingLine;
  }

  lemma RestrictCons(r: Settings, keys: seq<string>, m: Settings)
    requires keys != [] && keys[0] in m
    ensures r[keys[0] := m[keys[0]]] + Restrict(m, keys[1..]) == r + Restrict(m, keys)
  {
    assert forall x :: x in keys <==> x == keys[0] || x in keys[1..];
  }

  lemma ReadPrinted(m: Settings, text: string)
    requires WellFormed(m) && Printed(m, text)
    ensures Read(text) == m
  {
    var keys :| Ascending(keys) && Lists(keys, m.Keys) && text == Terminated([BANNER] + SettingLines(keys, m));
    BannerReads(map[]);
    PrintedLinesOneLine(keys, m);
    PrintedLinesRead(map[], keys, m);
    RestrictAll(keys, m);
    hide Less, OneLine, ReadLine, SettingLine, WellFormed, BANNER, Ascending, SettingLines;
    var lines := [BANNER] + SettingLines(keys, m);
    SplitTerminated(lines);
    hide Terminated, SplitLines;
    assert lines[0] == BANNER && lines[1..] == SettingLines(keys, m);
  }

  lemma RestrictAll(keys: seq<string>, m: Settings)
    requires Lists(keys, m.Keys)
    ensures map[] + Restrict(m, keys) == m
  {
  }

  /** Reading the file after a change gives the previous reading updated at the key. */
  lemma PersistThenRead(f: File, key: string, value: string, text: string)
    requires GoodKey(key) && GoodValue(value) && Printed(Known(f)[key := value], text)
    ensures Read(text) == Known(f)[key := value]
  {
    KnownWellFormed(f);
    ReadPrinted(Known(f)[key := value], text);
  }

  /** Persisting the same pair again changes nothing. */
  lemma PersistIdempotent(f: File, key: string, value: string, once: string, twice: string)
    requires GoodKey(key) && GoodValue(value)
    requires Printed(Known(f)[key := value], once) && Printed(Known(Readable(once))[key := value], twice)
    ensures once == twice
  {
    PersistThenRead(f, key, value, once);
    hide *;
    KnownReadable(once);
    assert Known(f)[key := value][key := value] == Known(f)[key := value];
    PrintedUnique(Known(f)[key := value], once, twice);
  }

  lemma KnownReadable(text: string)
    ensures Known(Readable(text)) == Read(text)
  {
  }

  lemma UpdatesCommute(m: Settings, k1: string, v1: string, k2: string, v2: string)
    requires k1 != k2
    ensures m[k1 := v1][k2 := v2] == m[k2 := v2][k1 := v1]
  {
  }

  /** Changes of two different keys commute, down to the text of the file. */
  lemma PersistCommutes(f: File, k1: string, v1: string, k2: string, v2: string, a: string, ab: string, b: string,
                        ba: string)
    requires k1 != k2 && GoodKey(k1) && GoodKey(k2) && GoodValue(v1) && GoodValue(v2)
    requires Printed(Known(f)[k1 := v1], a) && Printed(Known(Readable(a))[k2 := v2], ab)
    requires Printed(Known(f)[k2 := v2], b) && Printed(Known(Readable(b))[k1 := v1], ba)
    ensures ab == ba
  {
    PersistThenRead(f, k1, v1, a);
    PersistThenRead(f, k2, v2, b);
    hide *;
    KnownReadable(a);
    KnownReadable(b);
    UpdatesCommute(Known(f), k1, v1, k2, v2);
    PrintedUnique(Known(f)[k1 := v1][k2 := v2], ab, ba);
  }

  /** The settings the file holds, whether or not the program may read them. */
  function Held(f: File): Settings {
    if f.Absent? then map[] else Read(f.text)
  }

  /** Every other setting in the file survives a change, exactly when the file is readable or holds none. */
  lemma PersistKeepsOthersIff(f: File, key: string, value: string, text: string)
    requires GoodKey(key) && GoodValue(value) && Printed(Known(f)[key := value], text)
    ensures Read(text) == Held(f)[key := value] <==> !f.Unreadable? || Held(f).Keys <= {key}
  {
    PersistThenRead(f, key, value, text);
    hide Read, GoodKey, GoodValue, Printed;
    if f.Unreadable? {
      assert Read(text) == map[key := value];
      assert Held(f).Keys <= Held(f)[key := value].Keys;
      if Held(f).Keys <= {key} {
        assert Held(f)[key := value] == map[key := value];
      }
    }
  }
}
