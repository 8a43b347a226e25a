/** The unit-status caches (systemd_manager.py): entries that live for a TTL, a size limit enforced by
    emptying the whole cache, single and batched lookups, and the parsers that hand each unit its part
    of a batched answer. */
module StatusCache {
  import opened Sets
  import opened Text

  type Slug = string
  type UnitName = string
  type Cache<V> = map<(Slug, UnitName), (real, V)>
  type Props = map<string, string>

  // ---- one cache ----

  /** The entry a lookup may still use. */
  function Fresh<V>(c: Cache<V>, ttl: real, key: (Slug, UnitName), now: real): Option<V> {
    if key in c && now - c[key].0 < ttl then Some(c[key].1) else None
  }

  function Put<V>(c: Cache<V>, max: nat, key: (Slug, UnitName), now: real, v: V): Cache<V> {
    (if |c| >= max then map[] else c)[key := (now, v)]
  }

  function PutAll<V>(c: Cache<V>, max: nat, sid: Slug, now: real, pairs: seq<(UnitName, V)>): Cache<V>
    decreases |pairs|
  {
    if pairs == [] then c
    else PutAll(Put(c, max, (sid, pairs[0].0), now, pairs[0].1), max, sid, now, pairs[1..])
  }

  function Misses<V>(c: Cache<V>, ttl: real, sid: Slug, units: seq<UnitName>, now: real): seq<UnitName> {
    if units == [] then []
    else
      var u := units[|units| - 1];
      Misses(c, ttl, sid, units[..|units| - 1], now) + if Fresh(c, ttl, (sid, u), now).None? then [u] else []
  }

  function Hits<V>(c: Cache<V>, ttl: real, sid: Slug, units: seq<UnitName>, now: real): map<UnitName, V> {
    map u | u in units && Fresh(c, ttl, (sid, u), now).Some? :: Fresh(c, ttl, (sid, u), now).value
  }

  /** The last value reported for each unit. */
  function Found<V>(pairs: seq<(UnitName, V)>): map<UnitName, V> {
    if pairs == [] then map[] else Found(pairs[..|pairs| - 1])[pairs[|pairs| - 1].0 := pairs[|pairs| - 1].1]
  }

  /** Ask: one lookup, single or batched; pairs is what systemctl reported for the units without a
      fresh entry. Drop: invalidate_unit_cache. */
  datatype Step<V> =
    | Ask(sid: Slug, units: seq<UnitName>, now: real, pairs: seq<(UnitName, V)>)
    | Drop(sid: Slug, unitName: UnitName)

  function Next<V>(c: Cache<V>, ttl: real, max: nat, step: Step<V>): Cache<V> {
    match step
    case Ask(sid, _, now, pairs) => PutAll(c, max, sid, now, pairs)
    case Drop(sid, u) => c - {(sid, u)}
  }

  function Answer<V>(c: Cache<V>, ttl: real, step: Step<V>): map<UnitName, V>
    requires step.Ask?
  {
    Hits(c, ttl, step.sid, step.units, step.now) + Found(step.pairs)
  }

  // ---- runs ----

  function After<V>(ttl: real, max: nat, run: seq<Step<V>>): Cache<V> {
    if run == [] then map[] else Next(After(ttl, max, run[..|run| - 1]), ttl, max, run[|run| - 1])
  }

  /** The clock never goes back. */
  predicate Ordered<V>(run: seq<Step<V>>) {
    forall i, j :: 0 <= i < j < |run| && run[i].Ask? && run[j].Ask? ==> run[i].now <= run[j].now
  }

  lemma {:induction false} PutAllBound<V>(c: Cache<V>, max: nat, sid: Slug, now: real, pairs: seq<(UnitName, V)>)
    requires |c| <= max && 0 < max
    ensures |PutAll(c, max, sid, now, pairs)| <= max
    decreases |pairs|
  {
    if pairs != [] {
      var key := (sid, pairs[0].0);
      var base := if |c| >= max then map[] else c;
      assert base[key := (now, pairs[0].1)].Keys == base.Keys + {key};
      PutAllBound(Put(c, max, key, now, pairs[0].1), max, sid, now, pairs[1..]);
    }
  }

  /** The cache never grows past its limit. */
  lemma {:induction false} NeverOverfull<V>(ttl: real, max: nat, run: seq<Step<V>>)
    requires 0 < max
    ensures |After(ttl, max, run)| <= max
  {
    if run != [] {
      var before, last := run[..|run| - 1], run[|run| - 1];
      NeverOverfull(ttl, max, before);
      var c := After(ttl, max, before);
      match last {
        case Ask(sid, _, now, pairs) => PutAllBound(c, max, sid, now, pairs);
        case Drop(sid, u) =>
          assert (c - {(sid, u)}).Keys <= c.Keys;
          SubsetSize((c - {(sid, u)}).Keys, c.Keys);
      }
    }
  }

  /** An entry after a batch was put there by the batch or was there before. */
  lemma {:induction false} PutAllOrigin<V>(c: Cache<V>, max: nat, sid: Slug, now: real, pairs: seq<(UnitName, V)>,
                                           key: (Slug, UnitName))
    requires key in PutAll(c, max, sid, now, pairs)
    ensures var entry := PutAll(c, max, sid, now, pairs)[key];
            (key.0 == sid && entry.0 == now && (key.1, entry.1) in pairs) || (key in c && entry == c[key])
    decreases |pairs|
  {
    if pairs != [] {
      PutAllOrigin(Put(c, max, (sid, pairs[0].0), now, pairs[0].1), max, sid, now, pairs[1..], key);
    }
  }

  ghost predicate Reports<V>(step: Step<V>, sid: Slug, u: UnitName, v: V) {
    step.Ask? && step.sid == sid && (u, v) in step.pairs
  }

  /** Every entry was reported for its unit, at its time, and not invalidated since. */
  lemma {:induction false} EntryOrigin<V>(ttl: real, max: nat, run: seq<Step<V>>, sid: Slug, u: UnitName)
    returns (i: nat)
    requires (sid, u) in After(ttl, max, run)
    ensures i < |run| && Reports(run[i], sid, u, After(ttl, max, run)[(sid, u)].1)
    ensures run[i].now == After(ttl, max, run)[(sid, u)].0
    ensures forall k :: i < k < |run| ==> run[k] != Drop(sid, u)
  {
    var before, last := run[..|run| - 1], run[|run| - 1];
    var c := After(ttl, max, before);
    if last.Ask? {
      PutAllOrigin(c, max, last.sid, last.now, last.pairs, (sid, u));
      if Reports(last, sid, u, After(ttl, max, run)[(sid, u)].1) && last.now == After(ttl, max, run)[(sid, u)].0 {
        i := |run| - 1;
      } else {
        i := EntryOrigin(ttl, max, before, sid, u);
      }
    } else {
      i := EntryOrigin(ttl, max, before, sid, u);
    }
  }

  lemma {:induction false} FoundIsReported<V>(pairs: seq<(UnitName, V)>, u: UnitName)
    ensures u in Found(pairs) <==> exists k :: 0 <= k < |pairs| && pairs[k].0 == u
    ensures u in Found(pairs) ==> (u, Found(pairs)[u]) in pairs
  {
    if pairs != [] {
      FoundIsReported(pairs[..|pairs| - 1], u);
      assert pairs == pairs[..|pairs| - 1] + [pairs[|pairs| - 1]];
    }
  }

  /** Every value a lookup returns, single or in a batch, was reported for that very unit, less than the
      TTL ago, and no invalidation of that unit has come since. */
  lemma ReturnedIsReported<V>(ttl: real, max: nat, run: seq<Step<V>>, step: Step<V>, u: UnitName) returns (i: nat)
    requires ttl > 0.0 && Ordered(run + [step]) && step.Ask? && u in Answer(After(ttl, max, run), ttl, step)
    ensures var all := run + [step];
            i < |all| && Reports(all[i], step.sid, u, Answer(After(ttl, max, run), ttl, step)[u])
            && 0.0 <= step.now - all[i].now < ttl
            && forall k :: i < k < |all| ==> all[k] != Drop(step.sid, u)
  {
    FoundIsReported(step.pairs, u);
    if u in Found(step.pairs) {
      i := |run|;
    } else {
      i := EntryOrigin(ttl, max, run, step.sid, u);
      assert (run + [step])[i] == run[i] && (run + [step])[|run|] == step;
    }
  }

  lemma PutWithRoom<V>(c: Cache<V>, max: nat, key: (Slug, UnitName), now: real, v: V)
    requires |c| < max
    ensures Put(c, max, key, now, v) == c[key := (now, v)] && |Put(c, max, key, now, v)| <= |c| + 1
  {
    assert c[key := (now, v)].Keys == c.Keys + {key};
  }

  /** With room for all it reports, a batch loses nothing: every unit it reported is a hit right after, and
      every other entry stays. */
  lemma {:induction false} RoomKeepsAll<V>(c: Cache<V>, max: nat, sid: Slug, now: real, pairs: seq<(UnitName, V)>,
                                           key: (Slug, UnitName))
    requires |c| + |pairs| <= max
    ensures var c' := PutAll(c, max, sid, now, pairs);
            if key.0 == sid && key.1 in Found(pairs) then key in c' && c'[key] == (now, Found(pairs)[key.1])
            else (key in c' <==> key in c) && (key in c ==> c'[key] == c[key])
    decreases |pairs|
  {
    if pairs != [] {
      var front, last := pairs[..|pairs| - 1], pairs[|pairs| - 1];
      RoomKeepsAll(c, max, sid, now, front, key);
      FrontSize(c, max, sid, now, front);
      assert pairs == front + [last] && [last][1..] == [];
      PutAllConcat(c, max, sid, now, front, [last]);
      PutWithRoom(PutAll(c, max, sid, now, front), max, (sid, last.0), now, last.1);
    }
  }

  lemma {:induction false} FrontSize<V>(c: Cache<V>, max: nat, sid: Slug, now: real, pairs: seq<(UnitName, V)>)
    requires |c| + |pairs| <= max
    ensures |PutAll(c, max, sid, now, pairs)| <= |c| + |pairs|
    decreases |pairs|
  {
    if pairs != [] {
      PutWithRoom(c, max, (sid, pairs[0].0), now, pairs[0].1);
      FrontSize(Put(c, max, (sid, pairs[0].0), now, pairs[0].1), max, sid, now, pairs[1..]);
    }
  }

  // ---- systemctl show ----

  /** PropsOf: one property a line; a later line wins. */
  function PropsOf(lines: seq<string>): Props {
    if lines == [] then map[]
    else
      var line := lines[|lines| - 1];
      var i := IndexOf(line, '=');
      var before := PropsOf(lines[..|lines| - 1]);
      if i == 0 then before else before[line[..i] := if i < |line| then line[i + 1..] else ""]
  }

  method ParseProps(text: string) returns (props: Props)
    ensures props == PropsOf(SplitLines(text))
  {
    var lines := SplitLines(text);
    props := map[];
    for n := 0 to |lines|
      invariant props == PropsOf(lines[..n])
    {
      var i := IndexOf(lines[n], '=');
      if i > 0 {
        props := props[lines[n][..i] := if i < |lines[n]| then lines[n][i + 1..] else ""];
      }
      assert lines[..n + 1][..n] == lines[..n];
    }
    assert lines[..|lines|] == lines;
  }

  /** Position of the first blank line, or the length. */
  function BlankAt(s: string): (i: nat)
    ensures i <= |s|
    ensures i < |s| ==> i + 1 < |s| && s[i] == '\n' && s[i + 1] == '\n'
    ensures forall j :: 0 <= j < i && j + 1 < |s| ==> !(s[j] == '\n' && s[j + 1] == '\n')
  {
    if |s| < 2 then |s| else if s[0] == '\n' && s[1] == '\n' then 0 else 1 + BlankAt(s[1..])
  }

  /** s.split("\n\n") */
  function SplitBlank(s: string): (blocks: seq<string>)
    ensures blocks != []
    decreases |s|
  {
    var i := BlankAt(s);
    if i == |s| then [s] else [s[..i]] + SplitBlank(s[i + 2..])
  }

  /** Units and blocks paired up in order, as far as both go. */
  function PropPairs(units: seq<UnitName>, blocks: seq<string>): seq<(UnitName, Props)> {
    seq(if |units| <= |blocks| then |units| else |blocks|,
        k requires 0 <= k < |units| && k < |blocks| => (units[k], PropsOf(SplitLines(blocks[k]))))
  }

  /** What systemctl show prints: one block of property lines a unit, a blank line between blocks. */
  function ShowOutput(reports: seq<seq<string>>): string {
    if reports == [] then ""
    else if |reports| == 1 then Terminated(reports[0])
    else Terminated(reports[0]) + "\n" + ShowOutput(reports[1..])
  }

  predicate PropertyLines(lines: seq<string>) {
    lines != [] && forall i :: 0 <= i < |lines| ==> lines[i] != "" && OneLine(lines[i])
  }

  predicate NoBlankLine(t: string) {
    forall j :: 0 <= j < |t| - 1 ==> !(t[j] == '\n' && t[j + 1] == '\n')
  }

  lemma {:induction false} TerminatedHasNoBlank(lines: seq<string>)
    requires PropertyLines(lines)
    ensures var t := Terminated(lines); |t| >= 2 && t[0] != '\n' && t[|t| - 1] == '\n' && NoBlankLine(t)
  {
    var first := lines[0] + "\n";
    assert forall j :: 0 <= j < |lines[0]| ==> first[j] != '\n';
    if |lines| > 1 {
      var rest := Terminated(lines[1..]);
      TerminatedHasNoBlank(lines[1..]);
      var t := first + rest;
      forall j | 0 <= j < |t| - 1 ensures !(t[j] == '\n' && t[j + 1] == '\n') {
        if j >= |first| {
          assert t[j] == rest[j - |first|] && t[j + 1] == rest[j - |first| + 1];
        }
      }
    } else {
      assert Terminated(lines[1..]) == "";
      assert Terminated(lines) == first;
    }
  }

  lemma {:induction false} SplitJoined(lines: seq<string>)
    requires PropertyLines(lines)
    ensures SplitLines(Join("\n", lines)) == lines
  {
    hide OneLine, IsLineBreak, SplitLines;
    if |lines| == 1 {
      OneLineAlone(lines[0]);
    } else {
      SplitJoined(lines[1..]);
      assert Join("\n", lines) == lines[0] + "\n" + Join("\n", lines[1..]);
      SplitLinesAtNewline(lines[0], Join("\n", lines[1..]));
      SplitOneLine(lines[0]);
    }
  }

  lemma OneLineAlone(line: string)
    requires line != "" && OneLine(line)
    ensures SplitLines(line) == [line]
  {
    BreakAtUnique(line, |line|);
  }

  lemma BlankAtUnique(s: string, i: nat)
    requires i + 1 < |s| && s[i] == '\n' && s[i + 1] == '\n'
    requires forall j :: 0 <= j < i ==> !(s[j] == '\n' && s[j + 1] == '\n')
    ensures BlankAt(s) == i
  {
  }

  lemma NoBlankAt(s: string)
    requires NoBlankLine(s)
    ensures BlankAt(s) == |s|
  {
  }

  /** The first blank line of a listing is the one after its first block. */
  lemma FirstBlockEnds(lines: seq<string>, rest: string)
    requires PropertyLines(lines)
    ensures SplitBlank(Terminated(lines) + "\n" + rest) == [Join("\n", lines)] + SplitBlank(rest)
  {
    TerminatedHasNoBlank(lines);
    JoinTerminated(lines);
    var t := Terminated(lines);
    var s := t + "\n" + rest;
    var i := |t| - 1;
    hide Terminated, Join, PropertyLines, NoBlankLine;
    assert s[i] == '\n' && s[i + 1] == '\n';
    forall j | 0 <= j < i ensures !(s[j] == '\n' && s[j + 1] == '\n') {
      NoBlankAtIndex(t, j);
    }
    BlankAtUnique(s, i);
    assert s[..i] == t[..i] == Join("\n", lines);
    assert s[i + 2..] == rest;
  }

  lemma NoBlankAtIndex(t: string, j: nat)
    requires NoBlankLine(t) && j < |t| - 1
    ensures !(t[j] == '\n' && t[j + 1] == '\n')
  {
  }

  function OwnPairs(units: seq<UnitName>, reports: seq<seq<string>>): (pairs: seq<(UnitName, Props)>)
    requires |units| == |reports|
  {
    seq(|units|, k requires 0 <= k < |units| => (units[k], PropsOf(reports[k])))
  }

  lemma PairsStep(units: seq<UnitName>, block: string, blocks: seq<string>, reports: seq<seq<string>>)
    requires |units| == |reports| > 0 && SplitLines(block) == reports[0]
    requires PropPairs(units[1..], blocks) == OwnPairs(units[1..], reports[1..])
    ensures PropPairs(units, [block] + blocks) == OwnPairs(units, reports)
  {
    hide SplitLines, PropsOf;
    var tail := PropPairs(units[1..], blocks);
    assert |tail| == |units| - 1;
    var whole := PropPairs(units, [block] + blocks);
    forall k | 0 < k < |units| ensures k < |whole| && whole[k] == OwnPairs(units, reports)[k] {
      assert tail[k - 1] == OwnPairs(units[1..], reports[1..])[k - 1];
    }
  }

  /** Cutting a listing at blank lines and reading each block gives back every unit's own properties, in
      order, whether or not the block kept its final newline. */
  lemma {:induction false} BlocksAreReports(units: seq<UnitName>, reports: seq<seq<string>>)
    requires |units| == |reports| > 0 && forall k :: 0 <= k < |reports| ==> PropertyLines(reports[k])
    ensures PropPairs(units, SplitBlank(ShowOutput(reports))) == OwnPairs(units, reports)
  {
    hide PropertyLines, PropsOf, SplitBlank, PropPairs, OwnPairs, SplitLines;
    if |reports| == 1 {
      SingleReport(reports[0]);
      PairsNone(units[1..], reports[1..]);
      PairsStep(units, Terminated(reports[0]), [], reports);
      assert [Terminated(reports[0])] + [] == [Terminated(reports[0])];
    } else {
      BlocksAreReports(units[1..], reports[1..]);
      FirstBlockEnds(reports[0], ShowOutput(reports[1..]));
      SplitJoined(reports[0]);
      PairsStep(units, Join("\n", reports[0]), SplitBlank(ShowOutput(reports[1..])), reports);
    }
  }

  lemma PairsNone(units: seq<UnitName>, reports: seq<seq<string>>)
    requires |units| == |reports| == 0
    ensures PropPairs(units, []) == OwnPairs(units, reports)
  {
  }

  lemma SingleReport(lines: seq<string>)
    requires PropertyLines(lines)
    ensures SplitBlank(Terminated(lines)) == [Terminated(lines)]
    ensures SplitLines(Terminated(lines)) == lines
  {
    TerminatedHasNoBlank(lines);
    SplitTerminated(lines);
    NoBlankAt(Terminated(lines));
  }

  // ---- systemctl status ----

  /** The second of the words of s, which starts with a word. */
  function SecondWord(s: string): Option<string> {
    var rest := LStrip(s[FirstSpace(s)..]);
    if rest == "" then None else Some(rest[..FirstSpace(rest)])
  }

  predicate IsMarker(c: char) {
    c == '\U{25CF}' || c == '\U{25CB}' || c == '*'
  }

  /** The unit whose block the line opens. */
  function Opens(line: string, names: set<UnitName>): Option<UnitName> {
    var stripped := LStrip(line);
    if stripped == "" || !IsMarker(stripped[0]) then None
    else
      var word := SecondWord(stripped);
      if word.Some? && word.value in names then word else None
  }

  function Block(current: Option<UnitName>, lines: seq<string>): seq<(UnitName, string)> {
    if current.Some? then [(current.value, Strip(Join("\n", lines)))] else []
  }

  /** The blocks of the remaining lines, given the one being read. */
  function StatusPairs(lines: seq<string>, names: set<UnitName>, current: Option<UnitName>, acc: seq<string>)
    : seq<(UnitName, string)>
  {
    if lines == [] then Block(current, acc)
    else
      var u := Opens(lines[0], names);
      if u.Some? then Block(current, acc) + StatusPairs(lines[1..], names, u, [lines[0]])
      else StatusPairs(lines[1..], names, current, acc + [lines[0]])
  }

  function Concat(blocks: seq<(UnitName, seq<string>)>): seq<string> {
    if blocks == [] then [] else blocks[0].1 + Concat(blocks[1..])
  }

  predicate Plain(lines: seq<string>, names: set<UnitName>) {
    forall i :: 0 <= i < |lines| ==> Opens(lines[i], names).None?
  }

  /** A block opens with a line naming its unit and holds no other such line. */
  predicate BlockOf(b: (UnitName, seq<string>), names: set<UnitName>) {
    b.1 != [] && Opens(b.1[0], names) == Some(b.0) && Plain(b.1[1..], names)
  }

  lemma {:induction false} PlainLinesGather(lines: seq<string>, rest: seq<string>, names: set<UnitName>,
                                            current: Option<UnitName>, acc: seq<string>)
    requires Plain(lines, names)
    ensures StatusPairs(lines + rest, names, current, acc) == StatusPairs(rest, names, current, acc + lines)
  {
    if lines == [] {
      assert lines + rest == rest && acc + lines == acc;
    } else {
      assert (lines + rest)[1..] == lines[1..] + rest && (lines + rest)[0] == lines[0];
      assert (acc + [lines[0]]) + lines[1..] == acc + lines;
      PlainLinesGather(lines[1..], rest, names, current, acc + [lines[0]]);
    }
  }

  /** Reading a status listing gives every block's own text to the unit that opens it, in order, and
      drops what stands before the first block. */
  lemma StatusBlocks(preamble: seq<string>, blocks: seq<(UnitName, seq<string>)>, names: set<UnitName>)
    requires Plain(preamble, names) && forall k :: 0 <= k < |blocks| ==> BlockOf(blocks[k], names)
    ensures StatusPairs(preamble + Concat(blocks), names, None, [])
         == seq(|blocks|, k requires 0 <= k < |blocks| => (blocks[k].0, Strip(Join("\n", blocks[k].1))))
  {
    PlainLinesGather(preamble, Concat(blocks), names, None, []);
    BlocksFrom(blocks, names, None, [] + preamble);
  }

  lemma {:induction false} BlocksFrom(blocks: seq<(UnitName, seq<string>)>, names: set<UnitName>,
                                      current: Option<UnitName>, acc: seq<string>)
    requires forall k :: 0 <= k < |blocks| ==> BlockOf(blocks[k], names)
    ensures StatusPairs(Concat(blocks), names, current, acc)
         == Block(current, acc)
            + seq(|blocks|, k requires 0 <= k < |blocks| => (blocks[k].0, Strip(Join("\n", blocks[k].1))))
  {
    hide Strip, Join, Opens;
    if blocks != [] {
      var b, rest := blocks[0], Concat(blocks[1..]);
      assert b.1 + rest == [b.1[0]] + (b.1[1..] + rest);
      PlainLinesGather(b.1[1..], rest, names, Some(b.0), [b.1[0]]);
      assert [b.1[0]] + b.1[1..] == b.1;
      BlocksFrom(blocks[1..], names, Some(b.0), b.1);
    }
  }

  /** How many lines open a block. */
  function Openings(lines: seq<string>, names: set<UnitName>): nat {
    if lines == [] then 0 else (if Opens(lines[0], names).Some? then 1 else 0) + Openings(lines[1..], names)
  }

  lemma {:induction false} PairsAreOpenings(lines: seq<string>, names: set<UnitName>, current: Option<UnitName>,
                                            acc: seq<string>)
    ensures |StatusPairs(lines, names, current, acc)| == (if current.Some? then 1 else 0) + Openings(lines, names)
  {
    hide Opens, Strip, Join;
    if lines != [] {
      var u := Opens(lines[0], names);
      if u.Some? {
        PairsAreOpenings(lines[1..], names, u, [lines[0]]);
      } else {
        PairsAreOpenings(lines[1..], names, current, acc + [lines[0]]);
      }
    }
  }

  lemma {:induction false} PlainHasNoOpenings(lines: seq<string>, names: set<UnitName>)
    ensures Plain(lines, names) <==> Openings(lines, names) == 0
  {
    hide Opens;
    if lines != [] {
      PlainHasNoOpenings(lines[1..], names);
      assert forall i :: 0 < i < |lines| ==> lines[i] == lines[1..][i - 1];
    }
  }

  lemma {:induction false} OpeningsConcat(xs: seq<string>, ys: seq<string>, names: set<UnitName>)
    ensures Openings(xs + ys, names) == Openings(xs, names) + Openings(ys, names)
  {
    hide Opens;
    if xs == [] {
      assert xs + ys == ys;
    } else {
      assert (xs + ys)[1..] == xs[1..] + ys;
      OpeningsConcat(xs[1..], ys, names);
    }
  }

  /** A block that opens with a line naming its unit, whatever comes after. */
  predicate Headed(b: (UnitName, seq<string>), names: set<UnitName>) {
    b.1 != [] && Opens(b.1[0], names) == Some(b.0)
  }

  /** No continuation line of the block opens another. */
  predicate PlainTail(b: (UnitName, seq<string>), names: set<UnitName>) {
    b.1 == [] || Plain(b.1[1..], names)
  }

  lemma {:induction false} BlockOpenings(blocks: seq<(UnitName, seq<string>)>, names: set<UnitName>)
    requires forall k :: 0 <= k < |blocks| ==> Headed(blocks[k], names)
    ensures Openings(Concat(blocks), names) >= |blocks|
    ensures Openings(Concat(blocks), names) == |blocks|
            <==> forall k :: 0 <= k < |blocks| ==> PlainTail(blocks[k], names)
  {
    hide Opens, Plain;
    if blocks != [] {
      BlockOpenings(blocks[1..], names);
      OpeningsConcat(blocks[0].1, Concat(blocks[1..]), names);
      PlainHasNoOpenings(blocks[0].1[1..], names);
      assert forall k :: 0 < k < |blocks| ==> blocks[k] == blocks[1..][k - 1];
    }
  }

  /** A status listing is read back as its blocks, in order and without its preamble, exactly when no line of
      the preamble and no continuation line of a block opens a block of an asked unit. */
  lemma StatusBlocksIff(preamble: seq<string>, blocks: seq<(UnitName, seq<string>)>, names: set<UnitName>)
    requires forall k :: 0 <= k < |blocks| ==> Headed(blocks[k], names)
    ensures StatusPairs(preamble + Concat(blocks), names, None, [])
         == seq(|blocks|, k requires 0 <= k < |blocks| => (blocks[k].0, Strip(Join("\n", blocks[k].1))))
       <==> Plain(preamble, names) && forall k :: 0 <= k < |blocks| ==> PlainTail(blocks[k], names)
  {
    PairsAreOpenings(preamble + Concat(blocks), names, None, []);
    OpeningsConcat(preamble, Concat(blocks), names);
    PlainHasNoOpenings(preamble, names);
    BlockOpenings(blocks, names);
    hide Openings, StatusPairs, Concat, Opens, Strip, Join, Plain;
    if Plain(preamble, names) && forall k :: 0 <= k < |blocks| ==> PlainTail(blocks[k], names) {
      StatusBlocks(preamble, blocks, names);
    }
  }

  // ---- looking a batch up ----

  lemma {:induction false} MissesAre<V>(c: Cache<V>, ttl: real, sid: Slug, units: seq<UnitName>, now: real)
    ensures forall u :: u in Misses(c, ttl, sid, units, now) <==> u in units && Fresh(c, ttl, (sid, u), now).None?
  {
    if units != [] {
      MissesAre(c, ttl, sid, units[..|units| - 1], now);
      assert units == units[..|units| - 1] + [units[|units| - 1]];
    }
  }

  lemma {:induction false} PutAllConcat<V>(c: Cache<V>, max: nat, sid: Slug, now: real,
                                           xs: seq<(UnitName, V)>, ys: seq<(UnitName, V)>)
    ensures PutAll(c, max, sid, now, xs + ys) == PutAll(PutAll(c, max, sid, now, xs), max, sid, now, ys)
    decreases |xs|
  {
    if xs == [] {
      assert xs + ys == ys;
    } else {
      assert (xs + ys)[1..] == xs[1..] + ys;
      PutAllConcat(Put(c, max, (sid, xs[0].0), now, xs[0].1), max, sid, now, xs[1..], ys);
    }
  }

  lemma {:induction false} FoundConcat<V>(xs: seq<(UnitName, V)>, ys: seq<(UnitName, V)>)
    ensures Found(xs + ys) == Found(xs) + Found(ys)
  {
    if ys == [] {
      assert xs + ys == xs;
    } else {
      assert (xs + ys)[..|xs + ys| - 1] == xs + ys[..|ys| - 1];
      FoundConcat(xs, ys[..|ys| - 1]);
    }
  }

  /** A lookup of one unit that hits. */
  lemma HitAnswer<V>(c: Cache<V>, ttl: real, sid: Slug, u: UnitName, now: real, v: V)
    requires Fresh(c, ttl, (sid, u), now) == Some(v)
    ensures Answer(c, ttl, Ask(sid, [u], now, [])) == map[u := v]
  {
    hide Fresh;
    assert u in [u];
    assert Hits(c, ttl, sid, [u], now) == map[u := v];
  }

  /** A lookup of one unit that has to ask. */
  lemma MissAnswer<V>(c: Cache<V>, ttl: real, sid: Slug, u: UnitName, now: real, v: V)
    requires Fresh(c, ttl, (sid, u), now).None?
    ensures Answer(c, ttl, Ask(sid, [u], now, [(u, v)])) == map[u := v]
  {
    hide Fresh;
    assert Hits(c, ttl, sid, [u], now) == map[];
    assert [(u, v)][..0] == [];
    assert Found([(u, v)]) == map[u := v];
  }

  lemma PutOne<V>(c: Cache<V>, max: nat, sid: Slug, u: UnitName, now: real, v: V)
    ensures PutAll(c, max, sid, now, [(u, v)]) == Put(c, max, (sid, u), now, v)
  {
    hide Put;
    assert [(u, v)][1..] == [];
  }

  lemma LookupStep<V>(c: Cache<V>, ttl: real, sid: Slug, units: seq<UnitName>, now: real, n: nat)
    requires n < |units|
    ensures var hit := Fresh(c, ttl, (sid, units[n]), now);
            Hits(c, ttl, sid, units[..n + 1], now)
              == (if hit.Some? then Hits(c, ttl, sid, units[..n], now)[units[n] := hit.value]
                  else Hits(c, ttl, sid, units[..n], now))
            && Misses(c, ttl, sid, units[..n + 1], now)
              == Misses(c, ttl, sid, units[..n], now) + if hit.None? then [units[n]] else []
  {
    assert units[..n + 1][..n] == units[..n] && units[..n + 1] == units[..n] + [units[n]];
  }

  /** The first half of both batched lookups. */
  method LookUp<V>(c: Cache<V>, ttl: real, sid: Slug, units: seq<UnitName>, now: real)
    returns (result: map<UnitName, V>, uncached: seq<UnitName>)
    ensures result == Hits(c, ttl, sid, units, now)
    ensures uncached == Misses(c, ttl, sid, units, now)
    ensures forall u :: u in uncached <==> u in units && u !in result
  {
    uncached, result := [], map[];
    for n := 0 to |units|
      invariant result == Hits(c, ttl, sid, units[..n], now)
      invariant uncached == Misses(c, ttl, sid, units[..n], now)
    {
      LookupStep(c, ttl, sid, units, now, n);
      hide Hits, Misses;
      var hit := Fresh(c, ttl, (sid, units[n]), now);
      if hit.Some? {
        result := result[units[n] := hit.value];
      } else {
        uncached := uncached + [units[n]];
      }
    }
    assert units[..|units|] == units;
    MissesAre(c, ttl, sid, units, now);
  }

  lemma PutStep<V>(c: Cache<V>, max: nat, sid: Slug, now: real, pairs: seq<(UnitName, V)>, k: nat,
                   hits: map<UnitName, V>)
    requires k < |pairs|
    ensures PutAll(c, max, sid, now, pairs[..k + 1])
         == Put(PutAll(c, max, sid, now, pairs[..k]), max, (sid, pairs[k].0), now, pairs[k].1)
    ensures hits + Found(pairs[..k + 1]) == (hits + Found(pairs[..k]))[pairs[k].0 := pairs[k].1]
  {
    assert pairs[..k + 1] == pairs[..k] + [pairs[k]] && pairs[..k + 1][..k] == pairs[..k];
    PutAllConcat(c, max, sid, now, pairs[..k], [pairs[k]]);
    assert [pairs[k]][1..] == [];
  }

  lemma PropPairsAt(units: seq<UnitName>, blocks: seq<string>)
    ensures var pairs := PropPairs(units, blocks);
            |pairs| == (if |units| <= |blocks| then |units| else |blocks|)
            && forall k :: 0 <= k < |pairs| ==> pairs[k] == (units[k], PropsOf(SplitLines(blocks[k])))
  {
  }

  lemma AskIs<V>(c: Cache<V>, ttl: real, max: nat, sid: Slug, units: seq<UnitName>, now: real,
                 pairs: seq<(UnitName, V)>)
    ensures Next(c, ttl, max, Ask(sid, units, now, pairs)) == PutAll(c, max, sid, now, pairs)
    ensures Answer(c, ttl, Ask(sid, units, now, pairs)) == Hits(c, ttl, sid, units, now) + Found(pairs)
    ensures PutAll(c, max, sid, now, []) == c && Found<V>([]) == map[]
  {
  }

  /** One line of a status listing: it opens a block and closes the one before, or belongs to the current one. */
  lemma StatusStep(lines: seq<string>, n: nat, names: set<UnitName>, current: Option<UnitName>, acc: seq<string>)
    requires n < |lines|
    ensures var u := Opens(lines[n], names);
            StatusPairs(lines[n..], names, current, acc)
            == if u.Some? then Block(current, acc) + StatusPairs(lines[n + 1..], names, u, [lines[n]])
               else StatusPairs(lines[n + 1..], names, current, acc + [lines[n]])
  {
    assert lines[n..][1..] == lines[n + 1..];
  }

  lemma StatusEnds(lines: seq<string>, names: set<UnitName>, current: Option<UnitName>, acc: seq<string>)
    ensures lines[0..] == lines && StatusPairs(lines[|lines|..], names, current, acc) == Block(current, acc)
  {
  }

  lemma MapSumAssociates<K, V>(a: map<K, V>, b: map<K, V>, c: map<K, V>)
    ensures a + (b + c) == a + b + c
  {
  }

  lemma NothingDone<V>(c: Cache<V>, max: nat, sid: Slug, now: real, hits: map<UnitName, V>)
    ensures PutAll(c, max, sid, now, []) == c && hits + Found([]) == hits
  {
  }

  lemma BlockDone<V>(c: Cache<V>, max: nat, sid: Slug, now: real, hits: map<UnitName, V>,
                     done: seq<(UnitName, V)>, block: seq<(UnitName, V)>)
    ensures PutAll(c, max, sid, now, done + block) == PutAll(PutAll(c, max, sid, now, done), max, sid, now, block)
    ensures hits + Found(done + block) == hits + Found(done) + Found(block)
  {
    hide *;
    PutAllConcat(c, max, sid, now, done, block);
    FoundConcat(done, block);
    MapSumAssociates(hits, Found(done), Found(block));
  }

  lemma SeqSumAssociates<T>(a: seq<T>, b: seq<T>, c: seq<T>)
    ensures a + (b + c) == a + b + c && [] + a == a
  {
  }

  /** An answer completed with "" for every asked unit it lacks. */
  function WithBlanks(answer: map<UnitName, string>, units: seq<UnitName>): map<UnitName, string> {
    map u | u in answer.Keys + Elements(units) :: if u in answer then answer[u] else ""
  }

  lemma BlanksWhereMissing(answer: map<UnitName, string>, result: map<UnitName, string>,
                           units: seq<UnitName>, uncached: seq<UnitName>)
    requires forall u :: u in result <==> u in answer || u in uncached
    requires forall u :: u in result ==> result[u] == if u in answer then answer[u] else ""
    requires forall u :: u in uncached ==> u in units
    requires forall u :: u in units ==> u in uncached || u in answer
    ensures result == WithBlanks(answer, units)
  {
  }

  /** setdefault for every unit without an answer */
  method FillMissing(found: map<UnitName, string>, units: seq<UnitName>) returns (result: map<UnitName, string>)
    ensures forall u :: u in result <==> u in found || u in units
    ensures forall u :: u in result ==> result[u] == if u in found then found[u] else ""
  {
    result := found;
    for n := 0 to |units|
      invariant forall u :: u in result <==> u in found || u in units[..n]
      invariant forall u :: u in result ==> result[u] == if u in found then found[u] else ""
    {
      if units[n] !in result {
        result := result[units[n] := ""];
      }
    }
  }

  // ---- every unit gets what belongs to it ----

  lemma {:induction false} FoundOfFunction<V>(pairs: seq<(UnitName, V)>, f: UnitName -> V, u: UnitName)
    requires forall k :: 0 <= k < |pairs| ==> pairs[k].1 == f(pairs[k].0)
    ensures u in Found(pairs) <==> exists k :: 0 <= k < |pairs| && pairs[k].0 == u
    ensures u in Found(pairs) ==> Found(pairs)[u] == f(u)
  {
    FoundIsReported(pairs, u);
  }

  /** What a batch reports for the units it has to ask about, when systemd has property lines state(u) for
      each unit u. */
  function Reported(misses: seq<UnitName>, state: UnitName -> seq<string>): seq<(UnitName, Props)> {
    if misses == [] then []
    else PropPairs(misses, SplitBlank(ShowOutput(seq(|misses|, k requires 0 <= k < |misses| => state(misses[k])))))
  }

  lemma ReportedFound(misses: seq<UnitName>, state: UnitName -> seq<string>)
    requires forall u :: u in misses ==> PropertyLines(state(u))
    ensures var found := Found(Reported(misses, state));
            (forall u :: u in found <==> u in misses) && forall u :: u in misses ==> found[u] == PropsOf(state(u))
  {
    var reports := seq(|misses|, k requires 0 <= k < |misses| => state(misses[k]));
    hide PropertyLines, SplitBlank, ShowOutput, PropPairs, PropsOf, OwnPairs;
    if misses != [] {
      BlocksAreReports(misses, reports);
      OwnFound(misses, reports, state);
    }
  }

  /** Whatever is in the cache, and however often storing the answers empties it, a batch answers for exactly
      the units asked, with a fresh cached value for the hits and the unit's own properties for the misses. */
  lemma BatchPropsBelong(c: Cache<Props>, ttl: real, sid: Slug, units: seq<UnitName>, now: real,
                         state: UnitName -> seq<string>, u: UnitName)
    requires forall v :: v in units ==> PropertyLines(state(v))
    ensures var answer := Answer(c, ttl, Ask(sid, units, now, Reported(Misses(c, ttl, sid, units, now), state)));
            (u in answer <==> u in units)
            && (u in units ==> answer[u] == match Fresh(c, ttl, (sid, u), now)
                                            case Some(props) => props
                                            case None => PropsOf(state(u)))
  {
    MissesAre(c, ttl, sid, units, now);
    hide PropertyLines, Misses, PropsOf, Fresh, Found, Reported;
    ReportedFound(Misses(c, ttl, sid, units, now), state);
  }

  lemma OwnFound(units: seq<UnitName>, reports: seq<seq<string>>, state: UnitName -> seq<string>)
    requires |units| == |reports| && forall k :: 0 <= k < |units| ==> reports[k] == state(units[k])
    ensures var found := Found(OwnPairs(units, reports));
            (forall u :: u in found <==> u in units) && forall u :: u in units ==> found[u] == PropsOf(state(u))
  {
    hide PropsOf;
    var own := OwnPairs(units, reports);
    forall u ensures u in Found(own) <==> u in units
             ensures u in units ==> Found(own)[u] == PropsOf(state(u)) {
      FoundOfFunction(own, v => PropsOf(state(v)), u);
      if u in units {
        var k :| 0 <= k < |units| && units[k] == u;
        assert own[k].0 == u;
      }
    }
  }

  function BlocksFor(listed: seq<UnitName>, state: UnitName -> seq<string>): seq<(UnitName, seq<string>)> {
    seq(|listed|, k requires 0 <= k < |listed| => (listed[k], state(listed[k])))
  }

  /** What a batch makes of the status listing for the units it asked about. */
  function TextPairs(misses: seq<UnitName>, output: string): seq<(UnitName, string)> {
    StatusPairs(SplitLines(output), Elements(misses), None, [])
  }

  lemma TextPairsAre(misses: seq<UnitName>, output: string)
    ensures TextPairs(misses, output) == StatusPairs(SplitLines(output), Elements(misses), None, [])
  {
  }

  /** Whatever is in the cache, a batch gives every asked unit the fresh cached text if there is one, else the
      unit's own block of the listing if it has one, else "". */
  lemma BatchTextBelongs(c: Cache<string>, ttl: real, sid: Slug, units: seq<UnitName>, now: real,
                         preamble: seq<string>, listed: seq<UnitName>, state: UnitName -> seq<string>, u: UnitName)
    requires Listing(Elements(Misses(c, ttl, sid, units, now)), preamble, listed, state) && u in units
    ensures var output := Terminated(preamble + Concat(BlocksFor(listed, state)));
            var pairs := TextPairs(Misses(c, ttl, sid, units, now), output);
            var result := WithBlanks(Answer(c, ttl, Ask(sid, units, now, pairs)), units);
            u in result && result[u] == match Fresh(c, ttl, (sid, u), now)
                                        case Some(text) => text
                                        case None => if u in listed then Strip(Join("\n", state(u))) else ""
  {
    var misses := Misses(c, ttl, sid, units, now);
    MissesAre(c, ttl, sid, units, now);
    if u in listed { ListedIsAsked(Elements(misses), preamble, listed, state, u); }
    ListedTextBelongs(Elements(misses), preamble, listed, state, u);
    hide Misses, Fresh, Found, StatusPairs, SplitLines, Terminated, Concat, BlocksFor, Strip, Join, Listing;
  }

  lemma ListedIsAsked(names: set<UnitName>, preamble: seq<string>, listed: seq<UnitName>,
                      state: UnitName -> seq<string>, u: UnitName)
    requires Listing(names, preamble, listed, state) && u in listed
    ensures u in names
  {
    assert BlockOf((u, state(u)), names);
  }

  /** preamble and the blocks of the listed units make up a status listing for the units in names. */
  predicate Listing(names: set<UnitName>, preamble: seq<string>, listed: seq<UnitName>,
                    state: UnitName -> seq<string>) {
    Plain(preamble, names) && OneLines(preamble)
    && forall v :: v in listed ==> BlockOf((v, state(v)), names) && OneLines(state(v))
  }

  /** state: the status lines of a unit. Reading a listing of some of the asked units, in any order and after
      any preamble, gives each listed unit its own text and no other unit anything. */
  lemma ListedTextBelongs(names: set<UnitName>, preamble: seq<string>, listed: seq<UnitName>,
                          state: UnitName -> seq<string>, u: UnitName)
    requires Listing(names, preamble, listed, state)
    ensures var output := Terminated(preamble + Concat(BlocksFor(listed, state)));
            var found := Found(StatusPairs(SplitLines(output), names, None, []));
            (u in found <==> u in listed) && (u in listed ==> found[u] == Strip(Join("\n", state(u))))
  {
    var blocks := BlocksFor(listed, state);
    forall k | 0 <= k < |blocks| ensures BlockOf(blocks[k], names) && OneLines(blocks[k].1) {
      assert listed[k] in listed;
    }
    ConcatOneLines(blocks);
    SplitTerminated(preamble + Concat(blocks));
    StatusBlocks(preamble, blocks, names);
    assert |blocks| == |listed| && forall k :: 0 <= k < |blocks| ==> blocks[k] == (listed[k], state(listed[k]));
    hide Strip, Join, Plain, BlockOf, OneLines, StatusPairs, SplitLines, Terminated, Concat, BlocksFor, Found;
    FoundInBlocks(StatusPairs(preamble + Concat(blocks), names, None, []), listed, state, u);
  }

  lemma FoundInBlocks(pairs: seq<(UnitName, string)>, listed: seq<UnitName>, state: UnitName -> seq<string>,
                      u: UnitName)
    requires |pairs| == |listed|
    requires forall k :: 0 <= k < |pairs| ==> pairs[k] == (listed[k], Strip(Join("\n", state(listed[k]))))
    ensures u in Found(pairs) <==> u in listed
    ensures u in listed ==> Found(pairs)[u] == Strip(Join("\n", state(u)))
  {
    hide Strip, Join;
    FoundOfFunction(pairs, v => Strip(Join("\n", state(v))), u);
    if u in listed {
      var k :| 0 <= k < |listed| && listed[k] == u;
      assert pairs[k].0 == u;
    }
  }

  predicate OneLines(lines: seq<string>) {
    forall i :: 0 <= i < |lines| ==> OneLine(lines[i])
  }

  lemma {:induction false} ConcatOneLines(blocks: seq<(UnitName, seq<string>)>)
    requires forall k :: 0 <= k < |blocks| ==> OneLines(blocks[k].1)
    ensures OneLines(Concat(blocks))
  {
    hide OneLine;
    if blocks != [] {
      ConcatOneLines(blocks[1..]);
    }
  }

  // ---- the program's caches ----

  class StatusCaches {
    const ttl: real
    const max: nat
    var unitStatus: Cache<Props>
    var unitText: Cache<string>

    constructor (ttl: real, max: nat)
      ensures this.ttl == ttl && this.max == max && unitStatus == map[] && unitText == map[]
    {
      this.ttl, this.max := ttl, max;
      unitStatus, unitText := map[], map[];
    }

    method StoreProps(key: (Slug, UnitName), now: real, props: Props)
      modifies `unitStatus
      ensures unitStatus == Put(old(unitStatus), max, key, now, props)
    {
      if |unitStatus| >= max {
        unitStatus := map[];
      }
      unitStatus := unitStatus[key := (now, props)];
    }

    method StoreText(key: (Slug, UnitName), now: real, text: string)
      modifies `unitText
      ensures unitText == Put(old(unitText), max, key, now, text)
    {
      if |unitText| >= max {
        unitText := map[];
      }
      unitText := unitText[key := (now, text)];
    }

    /** show: what systemctl show prints for the units it is asked about. */
    method CachedUnitProps(sid: Slug, u: UnitName, now: real, show: seq<UnitName> -> string)
      returns (props: Props, ghost step: Step<Props>)
      modifies `unitStatus
      ensures step == Ask(sid, [u], now, if Fresh(old(unitStatus), ttl, (sid, u), now).Some? then []
                                         else [(u, PropsOf(SplitLines(show([u]))))])
      ensures unitStatus == Next(old(unitStatus), ttl, max, step)
      ensures Answer(old(unitStatus), ttl, step) == map[u := props]
    {
      var hit := Fresh(unitStatus, ttl, (sid, u), now);
      if hit.Some? {
        HitAnswer(unitStatus, ttl, sid, u, now, hit.value);
        return hit.value, Ask(sid, [u], now, []);
      }
      props := ParseProps(show([u]));
      step := Ask(sid, [u], now, [(u, props)]);
      MissAnswer(unitStatus, ttl, sid, u, now, props);
      PutOne(unitStatus, max, sid, u, now, props);
      hide Answer, PropsOf, SplitLines, Fresh, Put;
      StoreProps((sid, u), now, props);
    }

    method StoreBlocks(sid: Slug, uncached: seq<UnitName>, now: real, blocks: seq<string>, hits: map<UnitName, Props>)
      returns (result: map<UnitName, Props>)
      modifies `unitStatus
      ensures unitStatus == PutAll(old(unitStatus), max, sid, now, PropPairs(uncached, blocks))
      ensures result == hits + Found(PropPairs(uncached, blocks))
    {
      hide *;
      ghost var pairs := PropPairs(uncached, blocks);
      PropPairsAt(uncached, blocks);
      NothingDone(unitStatus, max, sid, now, hits);
      var k := 0;
      result := hits;
      while k < |uncached| && k < |blocks|
        invariant 0 <= k <= |pairs|
        invariant unitStatus == PutAll(old(unitStatus), max, sid, now, pairs[..k])
        invariant result == hits + Found(pairs[..k])
      {
        PutStep(old(unitStatus), max, sid, now, pairs, k, hits);
        var props := ParseProps(blocks[k]);
        StoreProps((sid, uncached[k]), now, props);
        result := result[uncached[k] := props];
        k := k + 1;
      }
      assert pairs[..k] == pairs;
    }

    method BatchUnitProps(sid: Slug, units: seq<UnitName>, now: real, show: seq<UnitName> -> string)
      returns (result: map<UnitName, Props>, ghost step: Step<Props>)
      modifies `unitStatus
      ensures var uncached := Misses(old(unitStatus), ttl, sid, units, now);
              step == Ask(sid, units, now, if uncached == [] then []
                          else PropPairs(uncached, SplitBlank(show(uncached))))
      ensures unitStatus == Next(old(unitStatus), ttl, max, step)
      ensures result == Answer(old(unitStatus), ttl, step)
    {
      var uncached;
      result, uncached := LookUp(unitStatus, ttl, sid, units, now);
      step := Ask(sid, units, now, []);
      if uncached != [] {
        var blocks := SplitBlank(show(uncached));
        step := Ask(sid, units, now, PropPairs(uncached, blocks));
        hide Hits, Misses, Found, PutAll, PropPairs, SplitBlank;
        result := StoreBlocks(sid, uncached, now, blocks, result);
      }
    }

    method CachedUnitText(sid: Slug, u: UnitName, now: real, status: seq<UnitName> -> string)
      returns (text: string, ghost step: Step<string>)
      modifies `unitText
      ensures step == Ask(sid, [u], now, if Fresh(old(unitText), ttl, (sid, u), now).Some? then []
                                         else [(u, Strip(status([u])))])
      ensures unitText == Next(old(unitText), ttl, max, step)
      ensures Answer(old(unitText), ttl, step) == map[u := text]
    {
      var hit := Fresh(unitText, ttl, (sid, u), now);
      if hit.Some? {
        HitAnswer(unitText, ttl, sid, u, now, hit.value);
        return hit.value, Ask(sid, [u], now, []);
      }
      text := Strip(status([u]));
      step := Ask(sid, [u], now, [(u, text)]);
      MissAnswer(unitText, ttl, sid, u, now, text);
      PutOne(unitText, max, sid, u, now, text);
      hide Answer, Strip, Fresh, Put;
      StoreText((sid, u), now, text);
    }

    method Flush(sid: Slug, now: real, current: Option<UnitName>, lines: seq<string>, found: map<UnitName, string>)
      returns (result: map<UnitName, string>)
      modifies `unitText
      ensures unitText == PutAll(old(unitText), max, sid, now, Block(current, lines))
      ensures result == found + Found(Block(current, lines))
    {
      result := found;
      if current.Some? {
        var text := Strip(Join("\n", lines));
        hide Strip, Join, Put;
        assert [(current.value, text)][..0] == [] && [(current.value, text)][1..] == [];
        StoreText((sid, current.value), now, text);
        result := result[current.value := text];
      }
    }

    method StoreStatus(sid: Slug, names: set<UnitName>, now: real, lines: seq<string>, hits: map<UnitName, string>)
      returns (result: map<UnitName, string>)
      modifies `unitText
      ensures unitText == PutAll(old(unitText), max, sid, now, StatusPairs(lines, names, None, []))
      ensures result == hits + Found(StatusPairs(lines, names, None, []))
    {
      hide *;
      result := hits;
      var current, currentLines := None, [];
      ghost var done: seq<(UnitName, string)> := [];
      ghost var pairs := StatusPairs(lines, names, None, []);
      NothingDone(unitText, max, sid, now, hits);
      SeqSumAssociates(pairs, [], []);
      StatusEnds(lines, names, current, currentLines);
      for n := 0 to |lines|
        invariant pairs == done + StatusPairs(lines[n..], names, current, currentLines)
        invariant unitText == PutAll(old(unitText), max, sid, now, done)
        invariant result == hits + Found(done)
      {
        StatusStep(lines, n, names, current, currentLines);
        var u := Opens(lines[n], names);
        if u.Some? {
          ghost var block := Block(current, currentLines);
          BlockDone(old(unitText), max, sid, now, hits, done, block);
          SeqSumAssociates(done, block, StatusPairs(lines[n + 1..], names, u, [lines[n]]));
          result := Flush(sid, now, current, currentLines, result);
          done := done + block;
          current, currentLines := u, [];
        }
        SeqSumAssociates([lines[n]], [], []);
        currentLines := currentLines + [lines[n]];
      }
      StatusEnds(lines, names, current, currentLines);
      BlockDone(old(unitText), max, sid, now, hits, done, Block(current, currentLines));
      result := Flush(sid, now, current, currentLines, result);
    }

    method BatchUnitText(sid: Slug, units: seq<UnitName>, now: real, status: seq<UnitName> -> string)
      returns (result: map<UnitName, string>, ghost step: Step<string>)
      modifies `unitText
      ensures var uncached := Misses(old(unitText), ttl, sid, units, now);
              step == Ask(sid, units, now, if uncached == [] then [] else TextPairs(uncached, status(uncached)))
      ensures unitText == Next(old(unitText), ttl, max, step)
      ensures result == WithBlanks(Answer(old(unitText), ttl, step), units)
    {
      hide *;
      var uncached;
      result, uncached := LookUp(unitText, ttl, sid, units, now);
      ghost var hits := result;
      step := Ask(sid, units, now, []);
      AskIs(unitText, ttl, max, sid, units, now, []);
      if uncached != [] {
        var names := Elements(uncached);
        var lines := SplitLines(status(uncached));
        ghost var pairs := StatusPairs(lines, names, None, []);
        TextPairsAre(uncached, status(uncached));
        step := Ask(sid, units, now, pairs);
        AskIs(unitText, ttl, max, sid, units, now, pairs);
        result := StoreStatus(sid, names, now, lines, result);
        result := FillMissing(result, uncached);
      }
      BlanksWhereMissing(hits + Found(step.pairs), result, units, uncached);
    }

    method InvalidateUnitCache(sid: Slug, u: UnitName)
      modifies `unitStatus, `unitText
      ensures unitStatus == Next(old(unitStatus), ttl, max, Drop(sid, u))
      ensures unitText == Next(old(unitText), ttl, max, Drop(sid, u))
    {
      unitStatus := unitStatus - {(sid, u)};
      unitText := unitText - {(sid, u)};
    }
  }
}
