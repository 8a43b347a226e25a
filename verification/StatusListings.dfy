/** When the text of a batched systemctl status is handed to the right units (systemd_manager.py): the answer
    of every asked unit, for listings whose continuation lines may look like the first line of a block. */
module StatusListings {
  import opened Sets
  import opened Text
  import opened StatusCache

  // ---- the text a listing holds, white space aside ----

  /** How many characters are no white space. */
  function Ink(s: string): nat {
    if s == "" then 0 else (if IsSpace(s[0]) then 0 else 1) + Ink(s[1..])
  }

  function LinesInk(lines: seq<string>): nat {
    if lines == [] then 0 else Ink(lines[0]) + LinesInk(lines[1..])
  }

  function PairsInk(pairs: seq<(UnitName, string)>): nat {
    if pairs == [] then 0 else Ink(pairs[0].1) + PairsInk(pairs[1..])
  }

  lemma {:induction false} InkConcat(a: string, b: string)
    ensures Ink(a + b) == Ink(a) + Ink(b)
  {
    hide IsSpace;
    if a == "" {
      assert a + b == b;
    } else {
      assert (a + b)[1..] == a[1..] + b;
      InkConcat(a[1..], b);
    }
  }

  lemma {:induction false} LinesInkConcat(a: seq<string>, b: seq<string>)
    ensures LinesInk(a + b) == LinesInk(a) + LinesInk(b)
  {
    if a == [] {
      assert a + b == b;
    } else {
      assert (a + b)[1..] == a[1..] + b;
      LinesInkConcat(a[1..], b);
    }
  }

  lemma {:induction false} PairsInkConcat(a: seq<(UnitName, string)>, b: seq<(UnitName, string)>)
    ensures PairsInk(a + b) == PairsInk(a) + PairsInk(b)
  {
    if a == [] {
      assert a + b == b;
    } else {
      assert (a + b)[1..] == a[1..] + b;
      PairsInkConcat(a[1..], b);
    }
  }

  lemma {:induction false} LStripKeepsInk(s: string)
    ensures Ink(LStrip(s)) == Ink(s)
  {
    hide IsSpace;
    if s != "" && IsSpace(s[0]) {
      LStripKeepsInk(s[1..]);
    }
  }

  lemma {:induction false} RStripKeepsInk(s: string)
    ensures Ink(RStrip(s)) == Ink(s)
  {
    hide IsSpace;
    if s != "" && IsSpace(s[|s| - 1]) {
      var front, last := s[..|s| - 1], [s[|s| - 1]];
      RStripKeepsInk(front);
      assert s == front + last && last[1..] == "";
      InkConcat(front, last);
    }
  }

  lemma {:induction false} JoinKeepsInk(lines: seq<string>)
    ensures Ink(Join("\n", lines)) == LinesInk(lines)
  {
    if lines != [] {
      JoinKeepsInk(lines[1..]);
      if |lines| > 1 {
        InkConcat(lines[0] + "\n", Join("\n", lines[1..]));
        InkConcat(lines[0], "\n");
        assert "\n"[1..] == "";
      }
    }
  }

  /** A block's text has the ink of its lines. */
  lemma TextInk(lines: seq<string>)
    ensures Ink(Strip(Join("\n", lines))) == LinesInk(lines)
  {
    hide Join, IsSpace;
    JoinKeepsInk(lines);
    RStripKeepsInk(Join("\n", lines));
    LStripKeepsInk(RStrip(Join("\n", lines)));
  }

  lemma OpeningHasInk(line: string, names: set<UnitName>)
    requires Opens(line, names).Some?
    ensures Ink(line) > 0 && LinesInk([line]) > 0
  {
    LStripKeepsInk(line);
    assert [line][1..] == [];
    hide SecondWord;
  }

  lemma BlockInk(current: Option<UnitName>, lines: seq<string>)
    ensures PairsInk(Block(current, lines)) == if current.Some? then LinesInk(lines) else 0
    ensures current.Some? ==> forall p :: p in Block(current, lines) ==> Ink(p.1) == LinesInk(lines)
  {
    hide Ink, Strip, Join, LinesInk;
    TextInk(lines);
    if current.Some? {
      assert Block(current, lines)[1..] == [];
    }
  }

  // ---- what the pairs hold ----

  ghost predicate OpensSome(lines: seq<string>, names: set<UnitName>, u: UnitName) {
    exists i :: 0 <= i < |lines| && Opens(lines[i], names) == Some(u)
  }

  lemma OpensSomeStep(lines: seq<string>, names: set<UnitName>, u: UnitName)
    requires lines != []
    ensures OpensSome(lines, names, u) <==> Opens(lines[0], names) == Some(u) || OpensSome(lines[1..], names, u)
  {
    hide Opens;
    if i :| 0 <= i < |lines| && Opens(lines[i], names) == Some(u) {
      if i > 0 {
        assert lines[1..][i - 1] == lines[i];
      }
    }
    if i :| 0 <= i < |lines[1..]| && Opens(lines[1..][i], names) == Some(u) {
      assert lines[i + 1] == lines[1..][i];
    }
  }

  ghost predicate HasPair(pairs: seq<(UnitName, string)>, u: UnitName) {
    exists k :: 0 <= k < |pairs| && pairs[k].0 == u
  }

  lemma HasPairConcat(a: seq<(UnitName, string)>, b: seq<(UnitName, string)>, u: UnitName)
    ensures HasPair(a + b, u) <==> HasPair(a, u) || HasPair(b, u)
  {
    if k :| 0 <= k < |a| && a[k].0 == u {
      assert (a + b)[k] == a[k];
    }
    if k :| 0 <= k < |b| && b[k].0 == u {
      assert (a + b)[|a| + k] == b[k];
    }
  }

  /** Pairs exist exactly for the units some line opens. */
  lemma {:induction false} PairsAreOpened(lines: seq<string>, names: set<UnitName>, current: Option<UnitName>,
                                          acc: seq<string>, u: UnitName)
    ensures HasPair(StatusPairs(lines, names, current, acc), u) <==> current == Some(u) || OpensSome(lines, names, u)
  {
    hide Opens, Strip, Join, OpensSome;
    if lines == [] {
      NothingOpens(names, u);
      BlockHas(current, acc, u);
    } else {
      OpensSomeStep(lines, names, u);
      var v := Opens(lines[0], names);
      if v.Some? {
        PairsAreOpened(lines[1..], names, v, [lines[0]], u);
        BlockHas(current, acc, u);
        HasPairConcat(Block(current, acc), StatusPairs(lines[1..], names, v, [lines[0]]), u);
      } else {
        PairsAreOpened(lines[1..], names, current, acc + [lines[0]], u);
      }
    }
  }

  lemma NothingOpens(names: set<UnitName>, u: UnitName)
    ensures !OpensSome([], names, u)
  {
  }

  lemma BlockHas(current: Option<UnitName>, acc: seq<string>, u: UnitName)
    ensures HasPair(Block(current, acc), u) <==> current == Some(u)
  {
    hide Strip, Join;
    if current.Some? {
      assert Block(current, acc)[0].0 == current.value;
    }
  }

  /** No unit is handed a blank text. */
  lemma {:induction false} PairsHaveInk(lines: seq<string>, names: set<UnitName>, current: Option<UnitName>,
                                        acc: seq<string>)
    requires current.Some? ==> LinesInk(acc) > 0
    ensures forall p :: p in StatusPairs(lines, names, current, acc) ==> Ink(p.1) > 0
  {
    hide Opens, Ink, LinesInk, Block;
    BlockInk(current, acc);
    NoBlock(acc);
    if lines != [] {
      var u := Opens(lines[0], names);
      if u.Some? {
        OpeningHasInk(lines[0], names);
        PairsHaveInk(lines[1..], names, u, [lines[0]]);
      } else {
        LinesInkConcat(acc, [lines[0]]);
        PairsHaveInk(lines[1..], names, current, acc + [lines[0]]);
      }
    }
  }

  lemma NoBlock(acc: seq<string>)
    ensures Block(None, acc) == []
  {
  }

  /** Once a block is open, every line ends up in the text of some pair. */
  lemma {:induction false} PairsKeepInk(lines: seq<string>, names: set<UnitName>, current: Option<UnitName>,
                                        acc: seq<string>)
    requires current.Some?
    ensures PairsInk(StatusPairs(lines, names, current, acc)) == LinesInk(acc) + LinesInk(lines)
  {
    hide Opens, Ink, Block, PairsInk;
    BlockInk(current, acc);
    if lines != [] {
      assert [lines[0]] + lines[1..] == lines;
      LinesInkConcat([lines[0]], lines[1..]);
      var u := Opens(lines[0], names);
      if u.Some? {
        PairsKeepInk(lines[1..], names, u, [lines[0]]);
        PairsInkConcat(Block(current, acc), StatusPairs(lines[1..], names, u, [lines[0]]));
      } else {
        LinesInkConcat(acc, [lines[0]]);
        PairsKeepInk(lines[1..], names, current, acc + [lines[0]]);
      }
    }
  }

  /** Of several texts none is as large as all together. */
  lemma {:induction false} PartIsLess(pairs: seq<(UnitName, string)>, k: nat)
    requires k < |pairs| && forall p :: p in pairs ==> Ink(p.1) > 0
    ensures Ink(pairs[k].1) <= PairsInk(pairs)
    ensures |pairs| > 1 ==> Ink(pairs[k].1) < PairsInk(pairs)
  {
    hide Ink;
    if k > 0 {
      PartIsLess(pairs[1..], k - 1);
    } else if |pairs| > 1 {
      PartIsLess(pairs[1..], 0);
    }
  }

  // ---- one block ----

  /** A block's own text. */
  function Own(state: UnitName -> seq<string>, u: UnitName): string {
    Strip(Join("\n", state(u)))
  }

  lemma {:induction false} PairsSplit(xs: seq<string>, ys: seq<string>, names: set<UnitName>,
                                      current: Option<UnitName>, acc: seq<string>)
    requires ys == [] || Opens(ys[0], names).Some?
    ensures StatusPairs(xs + ys, names, current, acc)
         == StatusPairs(xs, names, current, acc) + StatusPairs(ys, names, None, [])
  {
    hide Opens, Strip, Join;
    if xs == [] {
      assert xs + ys == ys;
    } else {
      assert (xs + ys)[1..] == xs[1..] + ys && (xs + ys)[0] == xs[0];
      var u := Opens(xs[0], names);
      if u.Some? {
        PairsSplit(xs[1..], ys, names, u, [xs[0]]);
      } else {
        PairsSplit(xs[1..], ys, names, current, acc + [xs[0]]);
      }
    }
  }

  /** A block with one more opening does not leave its unit the whole text. */
  lemma CutBlockIsShort(lines: seq<string>, names: set<UnitName>, u: UnitName)
    requires Headed((u, lines), names) && !PlainTail((u, lines), names)
    ensures var found := Found(StatusPairs(lines, names, None, [])); u in found ==> found[u] != Strip(Join("\n", lines))
  {
    var pairs := StatusPairs(lines, names, None, []);
    HeadPair(lines, names, u);
    PairsAreOpenings(lines[1..], names, Some(u), [lines[0]]);
    PlainHasNoOpenings(lines[1..], names);
    OpeningHasInk(lines[0], names);
    PairsHaveInk(lines[1..], names, Some(u), [lines[0]]);
    PairsKeepInk(lines[1..], names, Some(u), [lines[0]]);
    assert [lines[0]] + lines[1..] == lines;
    LinesInkConcat([lines[0]], lines[1..]);
    TextInk(lines);
    FoundIsReported(pairs, u);
    hide *;
    if u in Found(pairs) {
      var k :| 0 <= k < |pairs| && pairs[k] == (u, Found(pairs)[u]);
      PartIsLess(pairs, k);
    }
  }

  lemma HeadPair(lines: seq<string>, names: set<UnitName>, u: UnitName)
    requires Headed((u, lines), names)
    ensures lines != [] && Opens(lines[0], names) == Some(u)
    ensures StatusPairs(lines, names, None, []) == StatusPairs(lines[1..], names, Some(u), [lines[0]])
  {
    hide Opens, Strip, Join;
  }

  // ---- all blocks ----

  ghost predicate HeadedAll(names: set<UnitName>, listed: seq<UnitName>, state: UnitName -> seq<string>) {
    forall v :: v in listed ==> Headed((v, state(v)), names)
  }

  /** No continuation line of a listed unit opens a block. */
  ghost predicate TailsPlain(names: set<UnitName>, listed: seq<UnitName>, state: UnitName -> seq<string>) {
    forall v :: v in listed ==> PlainTail((v, state(v)), names)
  }

  ghost predicate AllOwn(found: map<UnitName, string>, listed: seq<UnitName>, state: UnitName -> seq<string>) {
    forall v :: v in listed ==> v in found && found[v] == Own(state, v)
  }

  function Region(names: set<UnitName>, listed: seq<UnitName>, state: UnitName -> seq<string>)
    : seq<(UnitName, string)>
  {
    StatusPairs(Concat(BlocksFor(listed, state)), names, None, [])
  }

  lemma RegionStarts(names: set<UnitName>, listed: seq<UnitName>, state: UnitName -> seq<string>)
    requires HeadedAll(names, listed, state)
    ensures var all := Concat(BlocksFor(listed, state)); all == [] || Opens(all[0], names).Some?
  {
    hide Opens;
    if listed != [] {
      assert Headed((listed[0], state(listed[0])), names);
    }
  }

  lemma RegionStep(names: set<UnitName>, listed: seq<UnitName>, state: UnitName -> seq<string>)
    requires HeadedAll(names, listed, state) && listed != []
    ensures Region(names, listed, state)
         == StatusPairs(state(listed[0]), names, None, []) + Region(names, listed[1..], state)
    ensures HeadedAll(names, listed[1..], state)
  {
    var blocks := BlocksFor(listed, state);
    assert blocks[1..] == BlocksFor(listed[1..], state) && blocks[0] == (listed[0], state(listed[0]));
    hide Headed, Opens, StatusPairs;
    assert HeadedAll(names, listed[1..], state);
    RegionStarts(names, listed[1..], state);
    PairsSplit(state(listed[0]), Concat(blocks[1..]), names, None, []);
  }

  /** Every listed unit is handed some text. */
  lemma {:induction false} ListedAreFound(names: set<UnitName>, listed: seq<UnitName>,
                                          state: UnitName -> seq<string>)
    requires HeadedAll(names, listed, state)
    ensures forall v :: v in listed ==> v in Found(Region(names, listed, state))
  {
    hide StatusPairs, Region, Found;
    if listed != [] {
      var first := listed[0];
      RegionStep(names, listed, state);
      ListedAreFound(names, listed[1..], state);
      var lines := state(first);
      assert Headed((first, lines), names);
      assert OpensSome(lines, names, first);
      PairsAreOpened(lines, names, None, [], first);
      FoundIsReported(StatusPairs(lines, names, None, []), first);
      FoundConcat(StatusPairs(lines, names, None, []), Region(names, listed[1..], state));
      assert forall v :: v in listed ==> v == first || v in listed[1..];
    }
  }

  /** If every listed unit is handed its own text, no continuation line opens a block. */
  lemma {:induction false} OwnMeansPlain(names: set<UnitName>, listed: seq<UnitName>,
                                         state: UnitName -> seq<string>)
    requires HeadedAll(names, listed, state) && AllOwn(Found(Region(names, listed, state)), listed, state)
    ensures TailsPlain(names, listed, state)
  {
    hide StatusPairs, Region, Found, PlainTail, Headed, Own;
    if listed != [] {
      var first, rest := listed[0], listed[1..];
      RegionStep(names, listed, state);
      ListedAreFound(names, rest, state);
      FoundConcat(StatusPairs(state(first), names, None, []), Region(names, rest, state));
      assert forall v :: v in listed <==> v == first || v in rest;
      OwnMeansPlain(names, rest, state);
      if first !in rest && !PlainTail((first, state(first)), names) {
        PlainRegion(names, rest, state, first);
        CutBlockIsShort(state(first), names, first);
        OwnIs(state, first);
      }
    }
  }

  lemma OwnIs(state: UnitName -> seq<string>, u: UnitName)
    ensures Own(state, u) == Strip(Join("\n", state(u)))
  {
  }

  /** Without such lines every listed unit is handed its own text and no other unit any. */
  lemma PlainRegion(names: set<UnitName>, listed: seq<UnitName>, state: UnitName -> seq<string>, u: UnitName)
    requires HeadedAll(names, listed, state) && TailsPlain(names, listed, state)
    ensures var found := Found(Region(names, listed, state));
            (u in found <==> u in listed) && (u in listed ==> found[u] == Own(state, u))
  {
    var blocks := BlocksFor(listed, state);
    hide Opens, Plain, Strip, Join, StatusPairs, Concat, Found;
    forall k | 0 <= k < |blocks| ensures BlockOf(blocks[k], names) {
      assert blocks[k].0 in listed;
    }
    StatusBlocks([], blocks, names);
    assert [] + Concat(blocks) == Concat(blocks);
    FoundInBlocks(Region(names, listed, state), listed, state, u);
  }

  // ---- a whole listing ----

  /** The preamble opens blocks of listed units only. */
  ghost predicate PreambleListed(names: set<UnitName>, preamble: seq<string>, listed: seq<UnitName>) {
    forall u :: OpensSome(preamble, names, u) ==> u in listed
  }

  /** What a unit is due: its own text when it is listed, else "". */
  function Due(listed: seq<UnitName>, state: UnitName -> seq<string>, u: UnitName): string {
    if u in listed then Own(state, u) else ""
  }

  function TextOf(found: map<UnitName, string>, u: UnitName): string {
    if u in found then found[u] else ""
  }

  /** A preamble and headed blocks, whatever their other lines look like. */
  ghost predicate RawListing(names: set<UnitName>, preamble: seq<string>, listed: seq<UnitName>,
                             state: UnitName -> seq<string>) {
    OneLines(preamble) && HeadedAll(names, listed, state) && forall v :: v in listed ==> OneLines(state(v))
  }

  function Output(preamble: seq<string>, listed: seq<UnitName>, state: UnitName -> seq<string>): string {
    Terminated(preamble + Concat(BlocksFor(listed, state)))
  }

  lemma PairsOfListing(names: set<UnitName>, preamble: seq<string>, listed: seq<UnitName>,
                       state: UnitName -> seq<string>)
    requires RawListing(names, preamble, listed, state)
    ensures StatusPairs(SplitLines(Output(preamble, listed, state)), names, None, [])
         == StatusPairs(preamble, names, None, []) + Region(names, listed, state)
  {
    var blocks := BlocksFor(listed, state);
    forall k | 0 <= k < |blocks| ensures OneLines(blocks[k].1) {
      assert listed[k] in listed;
    }
    ConcatOneLines(blocks);
    SplitTerminated(preamble + Concat(blocks));
    RegionStarts(names, listed, state);
    hide StatusPairs, Concat, BlocksFor, Opens;
    PairsSplit(preamble, Concat(blocks), names, None, []);
  }

  /** The listing hands a unit what its blocks give it, else what the preamble gives it, and never a blank text. */
  lemma FoundInListing(names: set<UnitName>, preamble: seq<string>, listed: seq<UnitName>,
                       state: UnitName -> seq<string>, u: UnitName)
    requires RawListing(names, preamble, listed, state)
    ensures var found := Handed(names, preamble, listed, state);
            var region := Found(Region(names, listed, state));
            (u in found <==> OpensSome(preamble, names, u) || u in region)
            && (u in region ==> found[u] == region[u])
            && (u in found ==> found[u] != "")
  {
    var first, region := StatusPairs(preamble, names, None, []), Region(names, listed, state);
    PairsOfListing(names, preamble, listed, state);
    PairsAreOpened(preamble, names, None, [], u);
    PairsHaveInk(SplitLines(Output(preamble, listed, state)), names, None, []);
    FoundIsReported(first, u);
    FoundConcat(first, region);
    FoundIsReported(first + region, u);
    hide StatusPairs, Region, Found, Output, SplitLines, OpensSome, RawListing;
  }

  /** The text each unit is handed. */
  function Handed(names: set<UnitName>, preamble: seq<string>, listed: seq<UnitName>, state: UnitName -> seq<string>)
    : map<UnitName, string>
  {
    Found(StatusPairs(SplitLines(Output(preamble, listed, state)), names, None, []))
  }

  ghost predicate AllDue(found: map<UnitName, string>, listed: seq<UnitName>, state: UnitName -> seq<string>) {
    forall u :: TextOf(found, u) == Due(listed, state, u)
  }

  /** Every unit gets what it is due, its own text if listed and else "", exactly when no continuation line of
      a listed unit opens a block and no line of the preamble opens one of a unit that is not listed. */
  lemma ListingDueIff(names: set<UnitName>, preamble: seq<string>, listed: seq<UnitName>,
                      state: UnitName -> seq<string>)
    requires RawListing(names, preamble, listed, state)
    ensures AllDue(Handed(names, preamble, listed, state), listed, state)
       <==> TailsPlain(names, listed, state) && PreambleListed(names, preamble, listed)
  {
    if AllDue(Handed(names, preamble, listed, state), listed, state) {
      DueMeansPlain(names, preamble, listed, state);
    }
    if TailsPlain(names, listed, state) && PreambleListed(names, preamble, listed) {
      PlainMeansDue(names, preamble, listed, state);
    }
  }

  lemma DueMeansPlain(names: set<UnitName>, preamble: seq<string>, listed: seq<UnitName>,
                      state: UnitName -> seq<string>)
    requires RawListing(names, preamble, listed, state)
    requires AllDue(Handed(names, preamble, listed, state), listed, state)
    ensures TailsPlain(names, listed, state) && PreambleListed(names, preamble, listed)
  {
    var region := Found(Region(names, listed, state));
    ListedAreFound(names, listed, state);
    hide Handed, Region, Found, OpensSome, Own, OneLines, Headed;
    forall v | v in listed ensures v in region && region[v] == Own(state, v) {
      FoundInListing(names, preamble, listed, state, v);
      assert TextOf(Handed(names, preamble, listed, state), v) == Due(listed, state, v);
    }
    OwnMeansPlain(names, listed, state);
    forall u | OpensSome(preamble, names, u) ensures u in listed {
      FoundInListing(names, preamble, listed, state, u);
      assert TextOf(Handed(names, preamble, listed, state), u) == Due(listed, state, u);
    }
  }

  lemma PlainMeansDue(names: set<UnitName>, preamble: seq<string>, listed: seq<UnitName>,
                      state: UnitName -> seq<string>)
    requires RawListing(names, preamble, listed, state)
    requires TailsPlain(names, listed, state) && PreambleListed(names, preamble, listed)
    ensures AllDue(Handed(names, preamble, listed, state), listed, state)
  {
    hide Handed, Region, Found, OpensSome, Own, OneLines, Headed;
    forall u ensures TextOf(Handed(names, preamble, listed, state), u) == Due(listed, state, u) {
      FoundInListing(names, preamble, listed, state, u);
      PlainRegion(names, listed, state, u);
    }
  }

  /** What a batch answers for a unit, given what was printed for the units without a fresh entry. */
  function Answered(c: Cache<string>, ttl: real, sid: Slug, units: seq<UnitName>, now: real, output: string)
    : map<UnitName, string>
  {
    WithBlanks(Answer(c, ttl, Ask(sid, units, now, TextPairs(Misses(c, ttl, sid, units, now), output))), units)
  }

  /** What a batch should answer: the fresh entry, else what the unit is due. */
  function DueOrFresh(c: Cache<string>, ttl: real, sid: Slug, now: real, listed: seq<UnitName>,
                      state: UnitName -> seq<string>, u: UnitName): string {
    match Fresh(c, ttl, (sid, u), now)
    case Some(text) => text
    case None => Due(listed, state, u)
  }

  /** Whatever is in the cache: a batch gives all asked units their fresh entries, their own blocks or "",
      exactly when no continuation line and no stray line of the preamble opens a block of a unit asked about. */
  lemma BatchTextBelongsIff(c: Cache<string>, ttl: real, sid: Slug, units: seq<UnitName>, now: real,
                            preamble: seq<string>, listed: seq<UnitName>, state: UnitName -> seq<string>)
    requires RawListing(Elements(Misses(c, ttl, sid, units, now)), preamble, listed, state)
    ensures Answered(c, ttl, sid, units, now, Output(preamble, listed, state))
            == (map u | u in units :: DueOrFresh(c, ttl, sid, now, listed, state, u))
       <==> TailsPlain(Elements(Misses(c, ttl, sid, units, now)), listed, state)
            && PreambleListed(Elements(Misses(c, ttl, sid, units, now)), preamble, listed)
  {
    var names := Elements(Misses(c, ttl, sid, units, now));
    ListingDueIff(names, preamble, listed, state);
    hide *;
    forall u ensures PointAgrees(c, ttl, sid, units, now, preamble, listed, state, u) {
      AnswerAgrees(c, ttl, sid, units, now, preamble, listed, state, u);
    }
    AnswersAgree(c, ttl, sid, units, now, preamble, listed, state);
  }

  /** A unit has the right answer exactly when it is handed what it is due. */
  ghost predicate PointAgrees(c: Cache<string>, ttl: real, sid: Slug, units: seq<UnitName>, now: real,
                              preamble: seq<string>, listed: seq<UnitName>, state: UnitName -> seq<string>,
                              u: UnitName) {
    var answer := Answered(c, ttl, sid, units, now, Output(preamble, listed, state));
    var handed := Handed(Elements(Misses(c, ttl, sid, units, now)), preamble, listed, state);
    (u in answer <==> u in units)
    && ((u in units ==> answer[u] == DueOrFresh(c, ttl, sid, now, listed, state, u))
        <==> TextOf(handed, u) == Due(listed, state, u))
  }

  lemma AnswerAgrees(c: Cache<string>, ttl: real, sid: Slug, units: seq<UnitName>, now: real,
                     preamble: seq<string>, listed: seq<UnitName>, state: UnitName -> seq<string>, u: UnitName)
    requires RawListing(Elements(Misses(c, ttl, sid, units, now)), preamble, listed, state)
    ensures PointAgrees(c, ttl, sid, units, now, preamble, listed, state, u)
  {
    HandedAreMisses(c, ttl, sid, units, now, preamble, listed, state, u);
    AnswerParts(c, ttl, sid, units, now, Output(preamble, listed, state), u);
    hide Misses, Fresh, Handed, Answered, Output, RawListing, TextPairs, Found, Own;
  }

  lemma AnswersAgree(c: Cache<string>, ttl: real, sid: Slug, units: seq<UnitName>, now: real,
                     preamble: seq<string>, listed: seq<UnitName>, state: UnitName -> seq<string>)
    requires forall u :: PointAgrees(c, ttl, sid, units, now, preamble, listed, state, u)
    ensures Answered(c, ttl, sid, units, now, Output(preamble, listed, state))
            == (map u | u in units :: DueOrFresh(c, ttl, sid, now, listed, state, u))
       <==> AllDue(Handed(Elements(Misses(c, ttl, sid, units, now)), preamble, listed, state), listed, state)
  {
    hide Misses, Handed, Answered, Output, Due, TextOf, DueOrFresh, PointAgrees;
    var answer := Answered(c, ttl, sid, units, now, Output(preamble, listed, state));
    var right := map u | u in units :: DueOrFresh(c, ttl, sid, now, listed, state, u);
    var handed := Handed(Elements(Misses(c, ttl, sid, units, now)), preamble, listed, state);
    forall u ensures u in answer <==> u in right
             ensures (u in right ==> answer[u] == right[u]) <==> TextOf(handed, u) == Due(listed, state, u) {
      PointIs(c, ttl, sid, units, now, preamble, listed, state, u);
    }
  }

  lemma PointIs(c: Cache<string>, ttl: real, sid: Slug, units: seq<UnitName>, now: real,
                preamble: seq<string>, listed: seq<UnitName>, state: UnitName -> seq<string>, u: UnitName)
    requires PointAgrees(c, ttl, sid, units, now, preamble, listed, state, u)
    ensures var answer := Answered(c, ttl, sid, units, now, Output(preamble, listed, state));
            var handed := Handed(Elements(Misses(c, ttl, sid, units, now)), preamble, listed, state);
            (u in answer <==> u in units)
            && ((u in units ==> answer[u] == DueOrFresh(c, ttl, sid, now, listed, state, u))
                <==> TextOf(handed, u) == Due(listed, state, u))
  {
    hide Misses, Handed, Answered, Output, Due, TextOf, DueOrFresh;
  }

  /** Texts are handed to units without a fresh entry only. */
  lemma HandedAreMisses(c: Cache<string>, ttl: real, sid: Slug, units: seq<UnitName>, now: real,
                        preamble: seq<string>, listed: seq<UnitName>, state: UnitName -> seq<string>, u: UnitName)
    requires RawListing(Elements(Misses(c, ttl, sid, units, now)), preamble, listed, state)
    ensures var misses := Misses(c, ttl, sid, units, now);
            var handed := Handed(Elements(misses), preamble, listed, state);
            handed == Found(TextPairs(misses, Output(preamble, listed, state)))
            && (u in handed || u in listed ==> u in units && Fresh(c, ttl, (sid, u), now).None?)
  {
    MissesAre(c, ttl, sid, units, now);
    HandedAreAsked(Elements(Misses(c, ttl, sid, units, now)), preamble, listed, state, u);
    hide Misses, Fresh, StatusPairs, SplitLines, Output, RawListing, Found;
  }

  /** The completed answer for one unit. */
  lemma AnswerParts(c: Cache<string>, ttl: real, sid: Slug, units: seq<UnitName>, now: real, output: string,
                    u: UnitName)
    requires var handed := Found(TextPairs(Misses(c, ttl, sid, units, now), output));
             u in handed ==> u in units && Fresh(c, ttl, (sid, u), now).None?
    ensures var answer := Answered(c, ttl, sid, units, now, output);
            var handed, hit := Found(TextPairs(Misses(c, ttl, sid, units, now), output)), Fresh(c, ttl, (sid, u), now);
            (u in answer <==> u in units)
            && (u in units ==> answer[u] == if hit.Some? then hit.value else TextOf(handed, u))
  {
    hide Fresh, Found, Misses, TextPairs;
  }

  lemma OpenedIsAsked(line: string, names: set<UnitName>)
    ensures Opens(line, names).Some? ==> Opens(line, names).value in names
  {
    hide LStrip, SecondWord;
  }

  lemma HandedAreAsked(names: set<UnitName>, preamble: seq<string>, listed: seq<UnitName>,
                       state: UnitName -> seq<string>, u: UnitName)
    requires RawListing(names, preamble, listed, state)
    ensures u in Handed(names, preamble, listed, state) || u in listed ==> u in names
  {
    var lines := SplitLines(Output(preamble, listed, state));
    PairsAreOpened(lines, names, None, [], u);
    FoundIsReported(StatusPairs(lines, names, None, []), u);
    hide Opens, StatusPairs, Output, SplitLines, Found;
    forall line ensures Opens(line, names) == Some(u) ==> u in names {
      OpenedIsAsked(line, names);
    }
    if u in listed {
      assert Headed((u, state(u)), names);
    }
  }

  // ---- at an input ----

  /** The parts of a line that opens u's block. */
  predicate Opening(line: string, indent: string, marker: string, gap: string, u: UnitName, rest: string) {
    line == indent + (marker + (gap + (u + rest))) && AllSpace(indent) && gap != "" && AllSpace(gap)
    && Word(marker) && marker[0] in {'\U{25CF}', '\U{25CB}', '*'} && Word(u) && (rest != "" ==> IsSpace(rest[0]))
  }

  lemma SecondOf(marker: string, gap: string, u: UnitName, rest: string)
    requires Word(marker) && gap != "" && AllSpace(gap) && Word(u) && (rest != "" ==> IsSpace(rest[0]))
    ensures SecondWord(marker + (gap + (u + rest))) == Some(u)
  {
    var tail := u + rest;
    var stripped := marker + (gap + tail);
    assert tail[0] == u[0] && (gap + tail)[0] == gap[0];
    FirstSpaceAfter(marker, gap + tail);
    assert stripped[|marker|..] == gap + tail;
    StripIndent(gap, tail);
    FirstSpaceAfter(u, rest);
    assert tail[..|u|] == u;
    hide IsSpace, LStrip, FirstSpace, Word;
  }

  lemma OpeningOpens(line: string, names: set<UnitName>, indent: string, marker: string, gap: string, u: UnitName,
                     rest: string)
    requires Opening(line, indent, marker, gap, u, rest) && u in names
    ensures Opens(line, names) == Some(u)
  {
    var stripped := marker + (gap + (u + rest));
    assert stripped[0] == marker[0];
    StripIndent(indent, stripped);
    SecondOf(marker, gap, u, rest);
    hide LStrip, SecondWord;
  }

  /** A text that starts with no white space is a word and what comes after it. */
  lemma FirstWordParts(s: string) returns (w: string, rest: string)
    requires s != "" && !IsSpace(s[0])
    ensures Word(w) && s == w + rest && rest == s[FirstSpace(s)..] && w == s[..FirstSpace(s)]
    ensures w[0] == s[0] && (rest != "" ==> IsSpace(rest[0]))
  {
    hide IsSpace;
    w, rest := s[..FirstSpace(s)], s[FirstSpace(s)..];
  }

  lemma OpensParts(line: string, names: set<UnitName>, u: UnitName)
    returns (indent: string, marker: string, gap: string, rest: string)
    requires Opens(line, names) == Some(u)
    ensures u in names && Opening(line, indent, marker, gap, u, rest)
  {
    indent := LStripParts(line);
    var stripped := LStrip(line);
    var tail;
    marker, tail := FirstWordParts(stripped);
    gap := LStripParts(tail);
    var name;
    name, rest := FirstWordParts(LStrip(tail));
    assert name == u;
    GapIsThere(tail, gap);
    hide IsSpace, LStrip, FirstSpace, Word;
  }

  lemma GapIsThere(tail: string, gap: string)
    requires tail == gap + LStrip(tail) && LStrip(tail) != "" && !IsSpace(LStrip(tail)[0])
    requires tail != "" ==> IsSpace(tail[0])
    ensures gap != ""
  {
    hide IsSpace;
  }

  /** A line opens the block of a unit exactly when the unit is asked about and the line is, after white space, a
      word that starts with one of the three markers, white space and the unit's name as a word. */
  lemma OpensIff(line: string, names: set<UnitName>, u: UnitName)
    ensures Opens(line, names) == Some(u)
       <==> u in names && exists indent, marker, gap, rest :: Opening(line, indent, marker, gap, u, rest)
  {
    hide Opens, Opening;
    if Opens(line, names) == Some(u) {
      var indent, marker, gap, rest := OpensParts(line, names, u);
    }
    if u in names && exists indent, marker, gap, rest :: Opening(line, indent, marker, gap, u, rest) {
      var indent, marker, gap, rest :| Opening(line, indent, marker, gap, u, rest);
      OpeningOpens(line, names, indent, marker, gap, u, rest);
    }
  }

  /** A line of a marker and a unit's name, indented or not, opens that unit's block. */
  lemma MarkerOpens(indent: string, marker: char, u: UnitName, rest: string, names: set<UnitName>)
    requires AllSpace(indent) && marker in {'\U{25CF}', '\U{25CB}', '*'} && Word(u) && u in names
    requires rest != "" ==> IsSpace(rest[0])
    ensures Opens(indent + ([marker] + (" " + (u + rest))), names) == Some(u)
  {
    hide Opens;
    OpeningOpens(indent + ([marker] + (" " + (u + rest))), names, indent, [marker], " ", u, rest);
  }

  lemma TwoBlocks(first: string, second: string, names: set<UnitName>, a: UnitName, b: UnitName)
    requires Opens(first, names) == Some(a) && Opens(second, names) == Some(b)
    ensures StatusPairs([first, second], names, None, []) == [(a, Strip(first)), (b, Strip(second))]
    ensures Join("\n", [first, second]) == first + "\n" + second
  {
    hide Opens, Strip;
    var lines := [first, second];
    assert lines[1..] == [second] && lines[1..][1..] == [];
    assert Block(Some(a), [first]) == [(a, Strip(first))] && Block(Some(b), [second]) == [(b, Strip(second))];
    assert StatusPairs([], names, Some(b), [second]) == Block(Some(b), [second]);
    assert StatusPairs([second], names, Some(a), [first]) == Block(Some(a), [first]) + Block(Some(b), [second]);
  }

  lemma StarText(u: UnitName)
    requires Word(u)
    ensures ['*'] + (" " + (u + "")) == "* " + u && Trimmed("* " + u)
  {
    var text := "* " + u;
    assert u + "" == u;
    assert text[|text| - 1] == u[|u| - 1] && text[0] == '*';
    assert ['*'] + (" " + u) == text;
  }

  /** A star and a unit's name, indented or not. */
  lemma StarLine(indent: string, u: UnitName, names: set<UnitName>)
    requires AllSpace(indent) && Word(u) && u in names
    ensures Opens(indent + ("* " + u), names) == Some(u) && Strip(indent + ("* " + u)) == "* " + u
  {
    hide Opens, Strip, Word, Trimmed, AllSpace;
    StarText(u);
    MarkerOpens(indent, '*', u, "", names);
    StripPadded(indent, "* " + u, "");
    assert indent + ("* " + u) + "" == indent + ("* " + u);
  }

  lemma Indents()
    ensures AllSpace("") && AllSpace("  ")
  {
  }

  lemma OwnTextOf(a: UnitName, b: UnitName)
    requires Word(b)
    ensures Strip("* " + a + "\n" + ("  " + ("* " + b))) == "* " + a + "\n" + ("  " + ("* " + b))
  {
    var t := "* " + a + "\n" + ("  " + ("* " + b));
    assert t[0] == '*';
    assert t[|t| - 1] == b[|b| - 1];
    TrimmedStrip(t);
  }

  /** Two units are asked about and only a is listed, with an indented line in its block that starts like b's
      block. That line is taken from a and given to b, which should get "". */
  lemma ContinuationIsTaken(a: UnitName, b: UnitName)
    requires Word(a) && Word(b)
    ensures var head, line := "* " + a, "  " + ("* " + b);
            StatusPairs([head, line], {a, b}, None, []) == [(a, head), (b, "* " + b)]
            && Strip(Join("\n", [head, line])) == head + "\n" + line
  {
    hide Opens, Strip, Word, AllSpace, StatusPairs, Join;
    Indents();
    StarLine("", a, {a, b});
    assert "" + ("* " + a) == "* " + a;
    StarLine("  ", b, {a, b});
    TwoBlocks("* " + a, "  " + ("* " + b), {a, b}, a, b);
    OwnTextOf(a, b);
  }
}
