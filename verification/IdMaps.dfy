/** UIDMap and GIDMap lines of a container (quadlet_writer.py). */
module IdMaps {
  import opened Text

  const NAMESPACE_SIZE := 65536

  /** container:namespace:size */
  datatype Entry = Entry(container: int, ns: int, size: int)

  predicate Increasing(xs: seq<int>) {
    forall i, j :: 0 <= i < j < |xs| ==> xs[i] < xs[j]
  }

  lemma SomeMember(s: set<int>)
    ensures s == {} || exists x: int :: x in s
  {
    if !(exists x: int :: x in s) {
      assert s == {};
    }
  }

  /** sorted(s) */
  method Sort(s: set<int>) returns (xs: seq<int>)
    ensures Increasing(xs) && |xs| == |s| && forall x :: x in xs <==> x in s
  {
    var todo := s;
    xs := [];
    while todo != {}
      invariant todo <= s && Increasing(xs) && |xs| == |s - todo|
      invariant forall x :: x in xs <==> x in s - todo
      decreases |todo|
    {
      SomeMember(todo);
      var x: int :| x in todo;
      var i := 0;
      while i < |xs| && xs[i] < x
        invariant i <= |xs| && forall j :: 0 <= j < i ==> xs[j] < x
      {
        i := i + 1;
      }
      Inserted(xs, i, x);
      assert s - (todo - {x}) == (s - todo) + {x};
      xs, todo := xs[..i] + [x] + xs[i..], todo - {x};
    }
    assert s - {} == s;
  }

  lemma Inserted(xs: seq<int>, i: nat, x: int)
    requires Increasing(xs) && i <= |xs| && x !in xs
    requires (forall j :: 0 <= j < i ==> xs[j] < x) && (i < |xs| ==> x <= xs[i])
    ensures var ys := xs[..i] + [x] + xs[i..]; Increasing(ys) && forall y :: y in ys <==> y in xs || y == x
  {
    var ys := xs[..i] + [x] + xs[i..];
    assert xs == xs[..i] + xs[i..];
    assert forall j :: 0 <= j < |ys| ==> ys[j] == if j < i then xs[j] else if j == i then x else xs[j - 1];
  }

  /** The ids that get an entry of their own: the configured ones and 0. */
  function Explicit(ids: seq<int>): set<int> {
    (set i | 0 <= i < |ids| :: ids[i]) + {0}
  }

  /** Entries from lo up to hi, each starting where the one before it ends. */
  predicate Chain(entries: seq<Entry>, lo: int, hi: int) {
    if entries == [] then lo == hi
    else var e := entries[|entries| - 1];
         e.size > 0 && e.container + e.size == hi && Chain(entries[..|entries| - 1], lo, e.container)
  }

  predicate Contains(e: Entry, c: int) {
    e.container <= c < e.container + e.size
  }

  /** Container 0 goes to namespace 0; all else shifts up by one. */
  predicate Shifts(e: Entry) {
    if e.container == 0 then e.ns == 0 && e.size == 1 else e.ns == e.container + 1 && !Contains(e, 0)
  }

  function Least(ids: seq<int>): int {
    if ids == [] then 0 else if ids[0] < Least(ids[1..]) then ids[0] else Least(ids[1..])
  }

  /** One past the last mapped id. */
  function End(ids: seq<int>): int {
    if ids == [] then NAMESPACE_SIZE else if ids[0] + 1 > End(ids[1..]) then ids[0] + 1 else End(ids[1..])
  }

  lemma {:induction false} LeastIs(ids: seq<int>)
    ensures Least(ids) in Explicit(ids) && forall c :: c in Explicit(ids) ==> Least(ids) <= c
  {
    if ids != [] {
      LeastIs(ids[1..]);
      assert Explicit(ids) == Explicit(ids[1..]) + {ids[0]};
    }
  }

  lemma {:induction false} EndIs(ids: seq<int>)
    ensures End(ids) >= NAMESPACE_SIZE && forall c :: c in Explicit(ids) ==> c < End(ids)
    ensures End(ids) == NAMESPACE_SIZE || End(ids) - 1 in Explicit(ids)
  {
    if ids != [] {
      EndIs(ids[1..]);
      assert Explicit(ids) == Explicit(ids[1..]) + {ids[0]};
    }
  }

  /** What a map for the ids is: a chain over everything from the least id to the end of the namespace
      (or past the largest id), of shifting entries, with a size-1 entry for each explicit id. */
  ghost predicate MapFor(ids: seq<int>, entries: seq<Entry>) {
    && Chain(entries, Least(ids), End(ids))
    && (forall e :: e in entries ==> Shifts(e))
    && (forall c :: c in Explicit(ids) ==> exists e :: e in entries && e.container == c && e.size == 1)
    && |entries| <= 2 * |Explicit(ids)|
  }

  /** The entry of an explicit id, and the filler from one id up to another. */
  function Own(c: int): Entry {
    Entry(c, if c == 0 then 0 else c + 1, 1)
  }

  function Filler(from: int, to: int): Entry {
    Entry(from, from + 1, to - from)
  }

  lemma ChainSnoc(entries: seq<Entry>, lo: int, hi: int, e: Entry)
    requires Chain(entries, lo, hi) && e.container == hi && e.size > 0
    ensures Chain(entries + [e], lo, hi + e.size)
  {
    assert (entries + [e])[..|entries|] == entries;
  }

  /** 0 is explicit, so it never falls into a filler. */
  lemma FillerShifts(explicit: seq<int>, i: nat)
    requires Increasing(explicit) && 0 in explicit && 0 < i < |explicit| && explicit[i - 1] + 1 < explicit[i]
    ensures Shifts(Filler(explicit[i - 1] + 1, explicit[i]))
  {
    var zero :| 0 <= zero < |explicit| && explicit[zero] == 0;
  }

  /** The state of the loop after the first i explicit ids. */
  ghost predicate Mapped(explicit: seq<int>, i: nat, entries: seq<Entry>, lo: int, hi: int) {
    && i <= |explicit| && Chain(entries, lo, hi)
    && (forall e :: e in entries ==> Shifts(e))
    && (forall k :: 0 <= k < i ==> Own(explicit[k]) in entries)
  }

  lemma MappedNone(explicit: seq<int>, lo: int)
    ensures Mapped(explicit, 0, [], lo, lo)
  {
  }

  lemma OwnShifts(c: int)
    ensures Shifts(Own(c))
  {
  }

  lemma TailShifts(from: int)
    requires 0 < from < NAMESPACE_SIZE
    ensures Shifts(Filler(from, NAMESPACE_SIZE))
  {
  }

  lemma MappedSnoc(explicit: seq<int>, i: nat, entries: seq<Entry>, lo: int, hi: int, e: Entry)
    requires Mapped(explicit, i, entries, lo, hi) && e.container == hi && e.size > 0 && Shifts(e)
    ensures Mapped(explicit, i, entries + [e], lo, hi + e.size)
    ensures i < |explicit| && e == Own(explicit[i]) ==> Mapped(explicit, i + 1, entries + [e], lo, hi + e.size)
  {
    ChainSnoc(entries, lo, hi, e);
    assert e in entries + [e];
  }

  /** The entries one explicit id adds: a filler when there is a gap in front of it, and its own. */
  function Added(prevEnd: int, cuid: int): seq<Entry> {
    (if cuid > prevEnd then [Filler(prevEnd, cuid)] else []) + [Own(cuid)]
  }

  lemma MappedNext(explicit: seq<int>, i: nat, entries: seq<Entry>, lo: int, prevEnd: int)
    requires Increasing(explicit) && 0 in explicit && i < |explicit| && lo == explicit[0]
    requires Mapped(explicit, i, entries, lo, if i == 0 then lo else prevEnd)
    requires prevEnd == if i == 0 then 0 else explicit[i - 1] + 1
    ensures Mapped(explicit, i + 1, entries + Added(prevEnd, explicit[i]), lo, explicit[i] + 1)
    ensures |Added(prevEnd, explicit[i])| <= if i == 0 then 1 else 2
  {
    var cuid := explicit[i];
    FirstNotPositive(explicit);
    OwnShifts(cuid);
    hide Mapped, Shifts;
    if cuid > prevEnd {
      FillerShifts(explicit, i);
      MappedSnoc(explicit, i, entries, lo, prevEnd, Filler(prevEnd, cuid));
      MappedSnoc(explicit, i, entries + [Filler(prevEnd, cuid)], lo, cuid, Own(cuid));
      assert entries + Added(prevEnd, cuid) == entries + [Filler(prevEnd, cuid)] + [Own(cuid)];
    } else {
      MappedSnoc(explicit, i, entries, lo, cuid, Own(cuid));
      assert entries + Added(prevEnd, cuid) == entries + [Own(cuid)];
    }
  }

  lemma FirstNotPositive(xs: seq<int>)
    requires Increasing(xs) && 0 in xs
    ensures xs[0] <= 0
  {
  }

  method AddEntries(sofar: seq<Entry>, prevEnd: int, cuid: int) returns (entries: seq<Entry>)
    ensures entries == sofar + Added(prevEnd, cuid)
  {
    entries := sofar;
    if cuid > prevEnd {
      entries := entries + [Entry(prevEnd, prevEnd + 1, cuid - prevEnd)];
    }
    if cuid == 0 {
      entries := entries + [Entry(0, 0, 1)];
    } else {
      entries := entries + [Entry(cuid, cuid + 1, 1)];
    }
  }

  /** The loop over the sorted ids: a filler where there is a gap, then the id's own entry. */
  method MapSorted(explicit: seq<int>, ghost lo: int) returns (entries: seq<Entry>, prevEnd: int)
    requires Increasing(explicit) && 0 in explicit && lo == explicit[0]
    ensures Mapped(explicit, |explicit|, entries, lo, prevEnd)
    ensures prevEnd == explicit[|explicit| - 1] + 1 && |entries| <= 2 * |explicit| - 1
  {
    entries, prevEnd := [], 0;
    MappedNone(explicit, lo);
    hide Mapped, Added, Increasing;
    for i := 0 to |explicit|
      invariant Mapped(explicit, i, entries, lo, if i == 0 then lo else prevEnd)
      invariant prevEnd == if i == 0 then 0 else explicit[i - 1] + 1
      invariant |entries| <= if i == 0 then 0 else 2 * i - 1
    {
      var cuid := explicit[i];
      MappedNext(explicit, i, entries, lo, prevEnd);
      entries := AddEntries(entries, prevEnd, cuid);
      prevEnd := cuid + 1;
    }
  }

  /** _resolve_id_maps, the ids already read as numbers */
  method ResolveIdMaps(ids: seq<int>) returns (entries: seq<Entry>)
    ensures ids == [] ==> entries == []
    ensures ids != [] ==> MapFor(ids, entries)
  {
    entries := [];
    if ids == [] {
      return;
    }
    var explicit := Sort(Explicit(ids));
    ghost var lo := Least(ids);
    LeastIs(ids);
    FirstIsLeast(explicit, lo);
    assert 0 in Explicit(ids);
    hide Explicit, Least, End, Mapped, MapFor, Shifts, Increasing;
    var prevEnd;
    entries, prevEnd := MapSorted(explicit, lo);
    EndOfSorted(ids, explicit);
    if prevEnd < NAMESPACE_SIZE {
      TailShifts(prevEnd);
      MappedSnoc(explicit, |explicit|, entries, lo, prevEnd, Filler(prevEnd, NAMESPACE_SIZE));
      entries := entries + [Entry(prevEnd, prevEnd + 1, NAMESPACE_SIZE - prevEnd)];
    }
    MappedAll(ids, explicit, entries);
  }

  lemma FirstIsLeast(xs: seq<int>, lo: int)
    requires Increasing(xs) && lo in xs && forall x :: x in xs ==> lo <= x
    ensures xs[0] == lo
  {
    var k :| 0 <= k < |xs| && xs[k] == lo;
    assert xs[0] in xs;
  }

  lemma EndOfSorted(ids: seq<int>, explicit: seq<int>)
    requires Increasing(explicit) && explicit != [] && forall x :: x in explicit <==> x in Explicit(ids)
    ensures var last := explicit[|explicit| - 1];
            last >= 0 && End(ids) == if last + 1 < NAMESPACE_SIZE then NAMESPACE_SIZE else last + 1
  {
    EndIs(ids);
    assert 0 in explicit;
    assert explicit[|explicit| - 1] in Explicit(ids);
    if End(ids) != NAMESPACE_SIZE { assert End(ids) - 1 in explicit; }
  }

  lemma MappedAll(ids: seq<int>, explicit: seq<int>, entries: seq<Entry>)
    requires Mapped(explicit, |explicit|, entries, Least(ids), End(ids)) && |entries| <= 2 * |explicit|
    requires |explicit| == |Explicit(ids)| && forall x :: x in explicit <==> x in Explicit(ids)
    ensures MapFor(ids, entries)
  {
    hide Chain, Least, End;
    forall c | c in Explicit(ids) ensures exists e :: e in entries && e.container == c && e.size == 1 {
      assert c in explicit;
      assert Own(c) in entries;
    }
  }

  // ---- the induced mapping ----

  /** Where the first entry that contains c sends it. */
  function Translate(entries: seq<Entry>, c: int): Option<int> {
    if entries == [] then None
    else if Contains(entries[0], c) then Some(entries[0].ns + (c - entries[0].container))
    else Translate(entries[1..], c)
  }

  lemma {:induction false} ChainCovers(entries: seq<Entry>, lo: int, hi: int, c: int)
    requires Chain(entries, lo, hi)
    ensures lo <= hi
    ensures lo <= c < hi <==> exists i :: 0 <= i < |entries| && Contains(entries[i], c)
    ensures forall i, j :: 0 <= i < j < |entries| ==> !(Contains(entries[i], c) && Contains(entries[j], c))
    ensures forall i :: 0 <= i < |entries| ==> entries[i].container + entries[i].size <= hi
  {
    if entries != [] {
      var n := |entries| - 1;
      ChainCovers(entries[..n], lo, entries[n].container, c);
      assert forall i :: 0 <= i < n ==> entries[..n][i] == entries[i];
    }
  }

  lemma {:induction false} TranslateFirst(entries: seq<Entry>, c: int)
    ensures match Translate(entries, c)
            case Some(n) => exists e :: e in entries && Contains(e, c) && n == e.ns + (c - e.container)
            case None => forall e :: e in entries ==> !Contains(e, c)
  {
    if entries != [] { TranslateFirst(entries[1..], c); }
  }

  /** The map sends 0 to 0 and any other N of its range to N+1, each id through exactly one entry. */
  lemma TranslateIs(ids: seq<int>, entries: seq<Entry>, c: int)
    requires MapFor(ids, entries)
    ensures Translate(entries, c) == if Least(ids) <= c < End(ids) then Some(if c == 0 then 0 else c + 1) else None
    ensures forall i, j :: 0 <= i < j < |entries| ==> !(Contains(entries[i], c) && Contains(entries[j], c))
  {
    ChainCovers(entries, Least(ids), End(ids), c);
    TranslateFirst(entries, c);
    hide Least, End, Translate, Chain, Explicit;
  }

  predicate Maps(entries: seq<Entry>, c: int) {
    Translate(entries, c).Some?
  }

  /** Two ids share a namespace id. */
  predicate Clash(entries: seq<Entry>, c: int, d: int) {
    c != d && Maps(entries, c) && Translate(entries, c) == Translate(entries, d)
  }

  /** Every id of the namespace is mapped and nothing else is, exactly when all ids are in 0..65535. */
  lemma PartitionsNamespace(ids: seq<int>, entries: seq<Entry>)
    requires MapFor(ids, entries)
    ensures (forall c: int :: Maps(entries, c) <==> 0 <= c < NAMESPACE_SIZE)
       <==> (forall i :: 0 <= i < |ids| ==> 0 <= ids[i] < NAMESPACE_SIZE)
  {
    forall c: int ensures Maps(entries, c) <==> Least(ids) <= c < End(ids) { TranslateIs(ids, entries, c); }
    RangeIff(ids);
    hide Maps;
    if forall c: int :: Maps(entries, c) <==> 0 <= c < NAMESPACE_SIZE {
      assert Maps(entries, Least(ids)) && Maps(entries, End(ids) - 1);
    }
  }

  lemma RangeIff(ids: seq<int>)
    ensures Least(ids) <= 0 < End(ids) && End(ids) >= NAMESPACE_SIZE
    ensures Least(ids) == 0 <==> forall i :: 0 <= i < |ids| ==> 0 <= ids[i]
    ensures End(ids) == NAMESPACE_SIZE <==> forall i :: 0 <= i < |ids| ==> ids[i] < NAMESPACE_SIZE
  {
    LeastIs(ids);
    EndIs(ids);
    hide Least, End;
    assert forall i :: 0 <= i < |ids| ==> ids[i] in Explicit(ids);
    assert forall c :: c in Explicit(ids) ==> c == 0 || exists i :: 0 <= i < |ids| && ids[i] == c;
  }

  /** No two ids share a namespace id, exactly when no id is negative. */
  lemma InjectiveIff(ids: seq<int>, entries: seq<Entry>)
    requires MapFor(ids, entries)
    ensures (forall c: int, d: int :: !Clash(entries, c, d)) <==> (forall i :: 0 <= i < |ids| ==> 0 <= ids[i])
  {
    RangeIff(ids);
    if Least(ids) < 0 {
      TranslateIs(ids, entries, -1);
      TranslateIs(ids, entries, 0);
      assert Clash(entries, -1, 0);
    } else {
      forall c: int, d: int ensures !Clash(entries, c, d) {
        TranslateIs(ids, entries, c);
        TranslateIs(ids, entries, d);
      }
    }
  }

  /** The rootless user namespace: 0 is the service user, N is subordinate id N-1. */
  function RootlessHost(ns: int, user: int, subidStart: int): int {
    if ns == 0 then user else subidStart + (ns - 1)
  }

  /** On the host, container id N > 0 is subidStart + N, and 0 is the service user. */
  lemma HostId(ids: seq<int>, entries: seq<Entry>, n: int, user: int, subidStart: int)
    requires MapFor(ids, entries) && 0 <= n < NAMESPACE_SIZE
    ensures Translate(entries, n).Some?
    ensures RootlessHost(Translate(entries, n).value, user, subidStart) == if n == 0 then user else subidStart + n
  {
    LeastIs(ids);
    EndIs(ids);
    TranslateIs(ids, entries, n);
  }
}
