/** Process monitor rows: processes seen in compartments and the regex patterns that make them
    known (compartment_manager.py), as steps over values. */
module Patterns {
  import opened Text

  type Id = nat

  /** re.fullmatch(pattern, cmdline) is not None */
  type Matcher = (string, string) -> bool

  datatype Process = Process(cid: string, name: string, cmdline: string, known: bool, pattern: Option<Id>, seen: nat)
  datatype Pattern = Pattern(cid: string, name: string, regex: string, segments: string)

  /** order: pattern ids, oldest first (ORDER BY created_at); ids of deleted patterns stay in it. */
  datatype Store = Store(procs: map<Id, Process>, pats: map<Id, Pattern>, order: seq<Id>)

  const EMPTY := Store(map[], map[], [])

  // ---- re.escape and SafeRegex ----

  const SPECIAL: string := "()[]{}?*+-|^$\\.&~# \t\n\r\U{000B}\U{000C}"
  const META: string := ".^$*+?{}[]\\|()"

  function Escape(s: string): string {
    if s == "" then ""
    else (if s[0] in SPECIAL then ['\\', s[0]] else [s[0]]) + Escape(s[1..])
  }

  predicate AsciiAlphanumeric(c: char) {
    'a' <= c <= 'z' || 'A' <= c <= 'Z' || '0' <= c <= '9'
  }

  /** The text a regex denotes when it consists of plain characters and escaped punctuation only. */
  function Literal(regex: string): Option<string> {
    if regex == "" then Some("")
    else if regex[0] == '\\' then
      if |regex| == 1 || AsciiAlphanumeric(regex[1]) then None
      else match Literal(regex[2..]) case None => None case Some(t) => Some([regex[1]] + t)
    else if regex[0] in META then None
    else match Literal(regex[1..]) case None => None case Some(t) => Some([regex[0]] + t)
  }

  /** On that fragment a matcher follows the regular expression syntax: the literal matches itself only. */
  ghost predicate Conforming(m: Matcher) {
    forall regex, t :: Literal(regex).Some? ==> (m(regex, t) <==> t == Literal(regex).value)
  }

  /** "(?" in s */
  predicate HasGroupExtension(s: string) {
    exists i :: 0 <= i < |s| - 1 && s[i] == '(' && s[i + 1] == '?'
  }

  const MAX_REGEX := 10000

  /** SafeRegex.of accepts the (compilable) text. */
  predicate SafeRegex(s: string) {
    '\0' !in s && '\r' !in s && |s| <= MAX_REGEX && !HasGroupExtension(s)
  }

  /** What re.escape leaves alone is an ordinary character; what it escapes is no letter or digit. */
  lemma SpecialChars(c: char)
    ensures c in META ==> c in SPECIAL
    ensures c in SPECIAL ==> !AsciiAlphanumeric(c)
  {
  }

  lemma {:induction false} LiteralEscape(s: string)
    ensures Literal(Escape(s)) == Some(s)
  {
    if s != "" {
      LiteralEscape(s[1..]);
      var e := Escape(s);
      SpecialChars(s[0]);
      hide AsciiAlphanumeric;
      if s[0] in SPECIAL {
        assert e[2..] == Escape(s[1..]);
      } else {
        assert e[1..] == Escape(s[1..]);
      }
      assert s == [s[0]] + s[1..];
    }
  }

  lemma {:induction false} EscapeHasNoGroup(s: string)
    ensures !HasGroupExtension(Escape(s))
    ensures forall c :: c != '\\' ==> (c in Escape(s) <==> c in s)
  {
    if s != "" {
      EscapeHasNoGroup(s[1..]);
      var e, rest := Escape(s), Escape(s[1..]);
      var head := if s[0] in SPECIAL then ['\\', s[0]] else [s[0]];
      assert forall c :: c in s <==> c == s[0] || c in s[1..];
      assert forall c :: c in e <==> c in head || c in rest;
      assert rest != "" ==> rest[0] != '?' by {
        if s[1..] != "" { assert '?' in SPECIAL; }
      }
      forall i | 0 <= i < |e| - 1 ensures !(e[i] == '(' && e[i + 1] == '?') {
        if i >= |head| {
          assert e[i] == rest[i - |head|] && e[i + 1] == rest[i + 1 - |head|];
        } else if i + 1 >= |head| {
          assert e[i + 1] == rest[0];
        }
      }
    }
  }

  // ---- rows ----

  predicate Named(p: Process, cid: string, name: string) {
    p.cid == cid && p.name == name
  }

  predicate SameKey(p: Process, cid: string, name: string, cmdline: string) {
    p.cid == cid && p.name == name && p.cmdline == cmdline
  }

  predicate Covers(m: Matcher, t: Pattern, p: Process) {
    t.cid == p.cid && t.name == p.name && m(t.regex, p.cmdline)
  }

  function Linked(p: Process, pid: Id): Process {
    p.(known := true, pattern := Some(pid))
  }

  function Unlinked(p: Process): Process {
    p.(known := false, pattern := None)
  }

  /** UPDATE of the rows in ids that the regex matches. */
  function LinkIn(m: Matcher, procs: map<Id, Process>, ids: set<Id>, regex: string, pid: Id): map<Id, Process> {
    map q | q in procs :: if q in ids && m(regex, procs[q].cmdline) then Linked(procs[q], pid) else procs[q]
  }

  /** UPDATE of the rows in ids that the regex does not match. */
  function UnlinkIn(m: Matcher, procs: map<Id, Process>, ids: set<Id>, regex: string): map<Id, Process> {
    map q | q in procs :: if q in ids && !m(regex, procs[q].cmdline) then Unlinked(procs[q]) else procs[q]
  }

  function Free(procs: map<Id, Process>, cid: string, name: string): set<Id> {
    set q | q in procs && Named(procs[q], cid, name) && procs[q].pattern.None?
  }

  function LinkedTo(procs: map<Id, Process>, pid: Id): set<Id> {
    set q | q in procs && procs[q].pattern == Some(pid)
  }

  /** First pattern of the compartment that matches, oldest first. */
  function FirstMatch(m: Matcher, s: Store, order: seq<Id>, cid: string, name: string, cmdline: string): Option<Id> {
    if order == [] then None
    else if order[0] in s.pats && s.pats[order[0]].cid == cid && s.pats[order[0]].name == name
            && m(s.pats[order[0]].regex, cmdline)
    then Some(order[0])
    else FirstMatch(m, s, order[1..], cid, name, cmdline)
  }

  /** A linked process of another pattern that the regex would match as well. */
  predicate Overlaps(m: Matcher, s: Store, cid: string, name: string, regex: string, exclude: Option<Id>) {
    exists q :: q in s.procs && Named(s.procs[q], cid, name) && s.procs[q].pattern.Some?
                && s.procs[q].pattern != exclude
                && m(regex, s.procs[q].cmdline) && s.procs[q].pattern.value in s.pats
  }

  /** Unique constraint (compartment, process name, regex). */
  predicate PatternTaken(s: Store, cid: string, name: string, regex: string, exclude: Option<Id>) {
    exists q :: q in s.pats && Some(q) != exclude && s.pats[q].cid == cid && s.pats[q].name == name
                && s.pats[q].regex == regex
  }

  predicate Seen(s: Store, cid: string, name: string, cmdline: string) {
    exists q :: q in s.procs && SameKey(s.procs[q], cid, name, cmdline)
  }

  // ---- operations ----

  datatype Outcome = Ok | Existing(id: Id) | NotFound | Overlap | Duplicate | Unsafe

  function Upsert(m: Matcher, s: Store, id: Id, cid: string, name: string, cmdline: string): (Store, bool) {
    if Seen(s, cid, name, cmdline) then
      (s.(procs := map q | q in s.procs ::
             if SameKey(s.procs[q], cid, name, cmdline) then s.procs[q].(seen := s.procs[q].seen + 1)
             else s.procs[q]), false)
    else
      var found := FirstMatch(m, s, s.order, cid, name, cmdline);
      (s.(procs := s.procs[id := Process(cid, name, cmdline, found.Some?, found, 1)]), true)
  }

  function Create(m: Matcher, s: Store, pid: Id, cid: string, name: string, regex: string, segments: string)
    : (Store, Outcome)
  {
    if Overlaps(m, s, cid, name, regex, None) then (s, Overlap)
    else if PatternTaken(s, cid, name, regex, None) then (s, Duplicate)
    else (Store(LinkIn(m, s.procs, Free(s.procs, cid, name), regex, pid),
                s.pats[pid := Pattern(cid, name, regex, segments)], s.order + [pid]), Ok)
  }

  function Update(m: Matcher, s: Store, cid: string, pid: Id, regex: string, segments: string): (Store, Outcome) {
    if pid !in s.pats || s.pats[pid].cid != cid then (s, NotFound)
    else
      var name := s.pats[pid].name;
      if Overlaps(m, s, cid, name, regex, Some(pid)) then (s, Overlap)
      else if PatternTaken(s, cid, name, regex, Some(pid)) then (s, Duplicate)
      else
        var kept := UnlinkIn(m, s.procs, LinkedTo(s.procs, pid), regex);
        (s.(procs := LinkIn(m, kept, Free(kept, cid, name), regex, pid),
            pats := s.pats[pid := s.pats[pid].(regex := regex, segments := segments)]), Ok)
  }

  /** The processes are unlinked whichever compartment is named; the pattern goes only from its own. */
  function DeletePattern(s: Store, cid: string, pid: Id): Store {
    s.(procs := map q | q in s.procs :: if s.procs[q].pattern == Some(pid) then Unlinked(s.procs[q]) else s.procs[q],
       pats := if pid in s.pats && s.pats[pid].cid == cid then s.pats - {pid} else s.pats)
  }

  /** set_process_known(known=True); pid is the id a new pattern would get. */
  function MarkKnown(m: Matcher, s: Store, cid: string, id: Id, pid: Id, segments: string): (Store, Outcome) {
    if id !in s.procs || s.procs[id].cid != cid then (s, NotFound)
    else
      var p := s.procs[id];
      if p.pattern.Some? && p.pattern.value in s.pats then (s, Existing(p.pattern.value))
      else if !SafeRegex(Escape(p.cmdline)) then (s, Unsafe)
      else Create(m, s, pid, cid, p.name, Escape(p.cmdline), segments)
  }

  /** set_process_known(known=False) */
  function MarkUnknown(s: Store, cid: string, id: Id): Store {
    if id in s.procs && s.procs[id].cid == cid then s.(procs := s.procs[id := Unlinked(s.procs[id])]) else s
  }

  function DeleteProcess(s: Store, cid: string, id: Id): Store {
    if id in s.procs && s.procs[id].cid == cid then s.(procs := s.procs - {id}) else s
  }

  /** Foreign keys when a compartment goes: its rows are deleted, links to its patterns are nulled. */
  function DropCompartment(s: Store, cid: string): Store {
    var pats := map q | q in s.pats && s.pats[q].cid != cid :: s.pats[q];
    s.(procs := map q | q in s.procs && s.procs[q].cid != cid ::
                  if s.procs[q].pattern.Some? && s.procs[q].pattern.value in s.pats && s.procs[q].pattern.value !in pats
                  then s.procs[q].(pattern := None) else s.procs[q],
       pats := pats)
  }

  /** INSERT OR IGNORE of one default pattern, without linking anything. */
  function Seed(s: Store, pid: Id, cid: string, name: string, regex: string): Store {
    if PatternTaken(s, cid, name, regex, None) then s
    else s.(pats := s.pats[pid := Pattern(cid, name, regex, "[]")], order := s.order + [pid])
  }

  datatype Op =
    | OpUpsert(id: Id, cid: string, name: string, cmdline: string)
    | OpCreate(id: Id, cid: string, name: string, regex: string, segments: string)
    | OpUpdate(cid: string, pid: Id, regex: string, segments: string)
    | OpDeletePattern(cid: string, pid: Id)
    | OpMarkKnown(cid: string, pid: Id, id: Id, segments: string)
    | OpMarkUnknown(cid: string, pid: Id)
    | OpDeleteProcess(cid: string, pid: Id)
    | OpDropCompartment(cid: string)
    | OpSeed(id: Id, cid: string, name: string, regex: string)

  function Step(m: Matcher, s: Store, op: Op): Store {
    match op
    case OpUpsert(id, cid, name, cmdline) => Upsert(m, s, id, cid, name, cmdline).0
    case OpCreate(id, cid, name, regex, segments) => Create(m, s, id, cid, name, regex, segments).0
    case OpUpdate(cid, pid, regex, segments) => Update(m, s, cid, pid, regex, segments).0
    case OpDeletePattern(cid, pid) => DeletePattern(s, cid, pid)
    case OpMarkKnown(cid, proc, id, segments) => MarkKnown(m, s, cid, proc, id, segments).0
    case OpMarkUnknown(cid, proc) => MarkUnknown(s, cid, proc)
    case OpDeleteProcess(cid, proc) => DeleteProcess(s, cid, proc)
    case OpDropCompartment(cid) => DropCompartment(s, cid)
    case OpSeed(id, cid, name, regex) => Seed(s, id, cid, name, regex)
  }

  /** Ids an operation creates are new. */
  predicate Fresh(s: Store, op: Op) {
    match op
    case OpUpsert(id, _, _, _) => id !in s.procs
    case OpCreate(id, _, _, _, _) => id !in s.pats && id !in s.order
    case OpMarkKnown(_, _, id, _) => id !in s.pats && id !in s.order
    case OpSeed(id, _, _, _) => id !in s.pats && id !in s.order
    case _ => true
  }

  function Steps(m: Matcher, s: Store, ops: seq<Op>): Store {
    if ops == [] then s else Step(m, Steps(m, s, ops[..|ops| - 1]), ops[|ops| - 1])
  }

  ghost predicate FreshRun(m: Matcher, s: Store, ops: seq<Op>) {
    forall n :: 0 <= n < |ops| ==> Fresh(Steps(m, s, ops[..n]), ops[n])
  }

  // ---- the invariant ----

  /** Known is linked, and a link goes to an existing pattern of the same compartment and name that matches. */
  ghost predicate LinksSound(m: Matcher, s: Store) {
    forall q :: q in s.procs ==>
      && (s.procs[q].known <==> s.procs[q].pattern.Some?)
      && (s.procs[q].pattern.Some? ==>
            s.procs[q].pattern.value in s.pats && Covers(m, s.pats[s.procs[q].pattern.value], s.procs[q]))
  }

  ghost predicate Unique(s: Store) {
    && (forall p, q :: p in s.procs && q in s.procs && p != q ==>
          !SameKey(s.procs[p], s.procs[q].cid, s.procs[q].name, s.procs[q].cmdline))
    && (forall p :: p in s.pats ==>
          !PatternTaken(s, s.pats[p].cid, s.pats[p].name, s.pats[p].regex, Some(p)) && p in s.order)
  }

  ghost predicate Invariant(m: Matcher, s: Store) {
    LinksSound(m, s) && Unique(s)
  }

  lemma {:induction false} FirstMatchIs(m: Matcher, s: Store, order: seq<Id>, cid: string, name: string,
                                        cmdline: string)
    ensures match FirstMatch(m, s, order, cid, name, cmdline)
            case Some(t) =>
              t in order && t in s.pats && s.pats[t].cid == cid && s.pats[t].name == name && m(s.pats[t].regex, cmdline)
            case None =>
              forall t :: t in order && t in s.pats && s.pats[t].cid == cid && s.pats[t].name == name ==>
                !m(s.pats[t].regex, cmdline)
  {
    if order != [] {
      FirstMatchIs(m, s, order[1..], cid, name, cmdline);
    }
  }

  lemma UpsertKeeps(m: Matcher, s: Store, id: Id, cid: string, name: string, cmdline: string)
    requires Invariant(m, s) && id !in s.procs
    ensures Invariant(m, Upsert(m, s, id, cid, name, cmdline).0)
  {
    hide FirstMatch, PatternTaken;
    FirstMatchIs(m, s, s.order, cid, name, cmdline);
    var s' := Upsert(m, s, id, cid, name, cmdline).0;
    PatternsUniqueAlike(s, s');
  }

  lemma PatternsUniqueAlike(s: Store, s': Store)
    requires Unique(s) && s'.pats == s.pats && s'.order == s.order
    ensures forall p :: p in s'.pats ==>
              !PatternTaken(s', s'.pats[p].cid, s'.pats[p].name, s'.pats[p].regex, Some(p)) && p in s'.order
  {
    forall p | p in s'.pats
      ensures !PatternTaken(s', s'.pats[p].cid, s'.pats[p].name, s'.pats[p].regex, Some(p)) && p in s'.order
    {
      assert !PatternTaken(s, s.pats[p].cid, s.pats[p].name, s.pats[p].regex, Some(p));
    }
  }

  /** Rows that keep their keys stay unique. */
  ghost predicate SameKeys(s: Store, s': Store) {
    forall q :: q in s'.procs ==>
      q in s.procs && SameKey(s'.procs[q], s.procs[q].cid, s.procs[q].name, s.procs[q].cmdline)
  }

  lemma AddPatternUnique(s: Store, s': Store, pid: Id, t: Pattern)
    requires Unique(s) && SameKeys(s, s') && pid !in s.pats
    requires s'.pats == s.pats[pid := t] && s'.order == s.order + [pid]
             && !PatternTaken(s, t.cid, t.name, t.regex, None)
    ensures Unique(s')
  {
    forall p | p in s'.pats ensures !PatternTaken(s', s'.pats[p].cid, s'.pats[p].name, s'.pats[p].regex, Some(p)) {
      assert p != pid ==> !PatternTaken(s, s.pats[p].cid, s.pats[p].name, s.pats[p].regex, Some(p));
    }
  }

  lemma CreateKeeps(m: Matcher, s: Store, pid: Id, cid: string, name: string, regex: string, segments: string)
    requires Invariant(m, s) && pid !in s.pats
    ensures Invariant(m, Create(m, s, pid, cid, name, regex, segments).0)
  {
    hide PatternTaken, Overlaps, LinkIn, Free, LinksSound, SameKeys;
    var (s', outcome) := Create(m, s, pid, cid, name, regex, segments);
    if outcome == Ok {
      CreateLinksSound(m, s, s', pid, Pattern(cid, name, regex, segments));
      AddPatternUnique(s, s', pid, Pattern(cid, name, regex, segments));
    }
  }

  lemma CreateLinksSound(m: Matcher, s: Store, s': Store, pid: Id, t: Pattern)
    requires LinksSound(m, s) && pid !in s.pats && s'.pats == s.pats[pid := t]
    requires s'.procs == LinkIn(m, s.procs, Free(s.procs, t.cid, t.name), t.regex, pid)
    ensures LinksSound(m, s') && SameKeys(s, s')
  {
  }

  lemma UpdateKeeps(m: Matcher, s: Store, cid: string, pid: Id, regex: string, segments: string)
    requires Invariant(m, s)
    ensures Invariant(m, Update(m, s, cid, pid, regex, segments).0)
  {
    hide PatternTaken, Overlaps;
    var (s', outcome) := Update(m, s, cid, pid, regex, segments);
    if outcome == Ok {
      UpdateLinksSound(m, s, s', pid, regex);
      UpdateUnique(s, s', pid, s.pats[pid].(regex := regex, segments := segments));
    }
  }

  lemma UpdateLinksSound(m: Matcher, s: Store, s': Store, pid: Id, regex: string)
    requires LinksSound(m, s) && pid in s.pats && pid in s'.pats && s'.pats == s.pats[pid := s'.pats[pid]]
    requires s'.pats[pid].cid == s.pats[pid].cid && s'.pats[pid].name == s.pats[pid].name && s'.pats[pid].regex == regex
    requires var kept := UnlinkIn(m, s.procs, LinkedTo(s.procs, pid), regex);
             s'.procs == LinkIn(m, kept, Free(kept, s.pats[pid].cid, s.pats[pid].name), regex, pid)
    ensures LinksSound(m, s') && SameKeys(s, s')
  {
  }

  lemma UpdateUnique(s: Store, s': Store, pid: Id, t: Pattern)
    requires Unique(s) && SameKeys(s, s') && pid in s.pats
    requires s'.pats == s.pats[pid := t] && s'.order == s.order && !PatternTaken(s, t.cid, t.name, t.regex, Some(pid))
    ensures Unique(s')
  {
    forall p | p in s'.pats ensures !PatternTaken(s', s'.pats[p].cid, s'.pats[p].name, s'.pats[p].regex, Some(p)) {
      assert !PatternTaken(s, s.pats[p].cid, s.pats[p].name, s.pats[p].regex, Some(p));
    }
  }

  lemma FewerRowsUnique(s: Store, s': Store)
    requires Unique(s) && SameKeys(s, s') && s'.order == s.order
    requires forall p :: p in s'.pats ==> p in s.pats && s'.pats[p] == s.pats[p]
    ensures Unique(s')
  {
    forall p | p in s'.pats ensures !PatternTaken(s', s'.pats[p].cid, s'.pats[p].name, s'.pats[p].regex, Some(p)) {
      assert !PatternTaken(s, s.pats[p].cid, s.pats[p].name, s.pats[p].regex, Some(p));
    }
  }

  lemma StepKeeps(m: Matcher, s: Store, op: Op)
    requires Invariant(m, s) && Fresh(s, op)
    ensures Invariant(m, Step(m, s, op))
  {
    hide Upsert, Create, Update, PatternTaken, Escape, SafeRegex, Invariant;
    match op
    case OpUpsert(id, cid, name, cmdline) => UpsertKeeps(m, s, id, cid, name, cmdline);
    case OpCreate(id, cid, name, regex, segments) => CreateKeeps(m, s, id, cid, name, regex, segments);
    case OpUpdate(cid, pid, regex, segments) => UpdateKeeps(m, s, cid, pid, regex, segments);
    case OpMarkKnown(cid, proc, id, segments) =>
      if proc in s.procs { CreateKeeps(m, s, id, cid, s.procs[proc].name, Escape(s.procs[proc].cmdline), segments); }
    case OpSeed(id, cid, name, regex) => SeedKeeps(m, s, id, cid, name, regex);
    case OpDeletePattern(cid, pid) => DeletePatternKeeps(m, s, cid, pid);
    case OpDropCompartment(cid) => DropCompartmentKeeps(m, s, cid);
    case OpMarkUnknown(cid, proc) => MarkUnknownKeeps(m, s, cid, proc);
    case OpDeleteProcess(cid, proc) => DeleteProcessKeeps(m, s, cid, proc);
  }

  lemma SeedKeeps(m: Matcher, s: Store, pid: Id, cid: string, name: string, regex: string)
    requires Invariant(m, s) && pid !in s.pats
    ensures Invariant(m, Seed(s, pid, cid, name, regex))
  {
    hide PatternTaken;
    if !PatternTaken(s, cid, name, regex, None) {
      AddPatternUnique(s, Seed(s, pid, cid, name, regex), pid, Pattern(cid, name, regex, "[]"));
    }
  }

  lemma DeletePatternKeeps(m: Matcher, s: Store, cid: string, pid: Id)
    requires Invariant(m, s)
    ensures Invariant(m, DeletePattern(s, cid, pid))
  {
    hide PatternTaken;
    FewerRowsUnique(s, DeletePattern(s, cid, pid));
  }

  lemma DropCompartmentKeeps(m: Matcher, s: Store, cid: string)
    requires Invariant(m, s)
    ensures Invariant(m, DropCompartment(s, cid))
  {
    hide PatternTaken;
    FewerRowsUnique(s, DropCompartment(s, cid));
  }

  lemma MarkUnknownKeeps(m: Matcher, s: Store, cid: string, id: Id)
    requires Invariant(m, s)
    ensures Invariant(m, MarkUnknown(s, cid, id))
  {
    hide PatternTaken;
    FewerRowsUnique(s, MarkUnknown(s, cid, id));
  }

  lemma DeleteProcessKeeps(m: Matcher, s: Store, cid: string, id: Id)
    requires Invariant(m, s)
    ensures Invariant(m, DeleteProcess(s, cid, id))
  {
    hide PatternTaken;
    FewerRowsUnique(s, DeleteProcess(s, cid, id));
  }

  /** Over every sequence of operations from an empty store: a process is known iff it is linked, and
      its pattern exists, has its compartment and name, and fully matches its command line. */
  lemma {:induction false} LinksStaySound(m: Matcher, ops: seq<Op>)
    requires FreshRun(m, EMPTY, ops)
    ensures Invariant(m, Steps(m, EMPTY, ops))
  {
    if ops != [] {
      var front := ops[..|ops| - 1];
      forall n | 0 <= n < |front| ensures Fresh(Steps(m, EMPTY, front[..n]), front[n]) {
        assert front[..n] == ops[..n];
      }
      LinksStaySound(m, front);
      StepKeeps(m, Steps(m, EMPTY, front), ops[|ops| - 1]);
    }
  }

  // ---- what creating and updating link ----

  /** The processes linked to pid are those of its compartment and name that its regex fully matches. */
  ghost predicate LinkedExactly(m: Matcher, s: Store, pid: Id) {
    pid in s.pats
    && forall q :: q in s.procs ==> (s.procs[q].pattern == Some(pid) <==> Covers(m, s.pats[pid], s.procs[q]))
  }

  /** Processes linked to other patterns are untouched, and no row appears, disappears or changes its key. */
  ghost predicate OthersUntouched(s: Store, s': Store, pid: Id) {
    && s'.procs.Keys == s.procs.Keys
    && (forall q :: q in s.procs ==> SameKey(s'.procs[q], s.procs[q].cid, s.procs[q].name, s.procs[q].cmdline)
                                     && s'.procs[q].seen == s.procs[q].seen)
    && (forall q :: q in s.procs
                    && (s.procs[q].pattern !in {None, Some(pid)} || s'.procs[q].pattern !in {None, Some(pid)}) ==>
          s'.procs[q] == s.procs[q])
  }

  lemma CreateLinks(m: Matcher, s: Store, pid: Id, cid: string, name: string, regex: string, segments: string)
    requires Invariant(m, s) && pid !in s.pats
    ensures var (s', outcome) := Create(m, s, pid, cid, name, regex, segments);
            && (outcome == Ok ==> s'.pats == s.pats[pid := Pattern(cid, name, regex, segments)]
                                  && LinkedExactly(m, s', pid) && OthersUntouched(s, s', pid))
            && (outcome != Ok ==> s' == s)
  {
    hide PatternTaken;
    var (s', outcome) := Create(m, s, pid, cid, name, regex, segments);
    if outcome == Ok {
      assert !Overlaps(m, s, cid, name, regex, None);
    }
  }

  /** What a successful update does to one row. */
  function Relinked(m: Matcher, s: Store, pid: Id, regex: string, p: Process): Process
    requires pid in s.pats
  {
    if p.pattern == Some(pid) then (if m(regex, p.cmdline) then p else Unlinked(p))
    else if p.pattern.None? && Named(p, s.pats[pid].cid, s.pats[pid].name) && m(regex, p.cmdline) then Linked(p, pid)
    else p
  }

  lemma UpdateRows(m: Matcher, s: Store, pid: Id, regex: string)
    requires LinksSound(m, s) && pid in s.pats
    ensures var kept := UnlinkIn(m, s.procs, LinkedTo(s.procs, pid), regex);
            var procs := LinkIn(m, kept, Free(kept, s.pats[pid].cid, s.pats[pid].name), regex, pid);
            procs == map q | q in s.procs :: Relinked(m, s, pid, regex, s.procs[q])
  {
  }

  lemma UpdateLinks(m: Matcher, s: Store, cid: string, pid: Id, regex: string, segments: string)
    requires Invariant(m, s)
    ensures var (s', outcome) := Update(m, s, cid, pid, regex, segments);
            && (outcome == Ok ==>
                  pid in s.pats && s'.pats == s.pats[pid := s.pats[pid].(regex := regex, segments := segments)]
                  && LinkedExactly(m, s', pid) && OthersUntouched(s, s', pid))
            && (outcome != Ok ==> s' == s)
  {
    hide PatternTaken, LinkIn, UnlinkIn, Free, LinkedTo, Unique;
    var (s', outcome) := Update(m, s, cid, pid, regex, segments);
    if outcome == Ok {
      var name := s.pats[pid].name;
      assert !Overlaps(m, s, cid, name, regex, Some(pid));
      UpdateRows(m, s, pid, regex);
    }
  }

  /** Seeing a process again counts it and changes nothing else; a new one is linked iff a pattern
      of its compartment and name matches, and then to the oldest such pattern. */
  lemma UpsertLinks(m: Matcher, s: Store, id: Id, cid: string, name: string, cmdline: string)
    requires Invariant(m, s) && id !in s.procs
    ensures var (s', isNew) := Upsert(m, s, id, cid, name, cmdline);
            && s'.pats == s.pats && (isNew <==> !Seen(s, cid, name, cmdline))
            && (forall q :: q in s.procs ==> q in s'.procs && s'.procs[q].(seen := s.procs[q].seen) == s.procs[q])
            && s'.procs.Keys == (if isNew then s.procs.Keys + {id} else s.procs.Keys)
            && (isNew ==> s'.procs[id].pattern == FirstMatch(m, s, s.order, cid, name, cmdline))
            && (isNew ==> (s'.procs[id].known <==> exists t :: t in s.pats && Covers(m, s.pats[t], s'.procs[id])))
  {
    FirstMatchIs(m, s, s.order, cid, name, cmdline);
  }

  // ---- marking a process known ----

  /** Marking an unlinked process known succeeds exactly when its command line has no NUL and no
      carriage return, is short enough escaped, and no pattern has that text yet. It never overlaps,
      links that process and no other. */
  lemma MarkKnownLinksOne(m: Matcher, s: Store, cid: string, id: Id, pid: Id, segments: string)
    requires Invariant(m, s) && Conforming(m) && pid !in s.pats
    requires id in s.procs && s.procs[id].cid == cid && s.procs[id].pattern.None?
    ensures var (s', outcome) := MarkKnown(m, s, cid, id, pid, segments);
            var p := s.procs[id];
            && outcome != Overlap
            && (outcome == Ok <==> '\0' !in p.cmdline && '\r' !in p.cmdline && |Escape(p.cmdline)| <= MAX_REGEX
                                   && !PatternTaken(s, cid, p.name, Escape(p.cmdline), None))
            && s'.procs == (if outcome == Ok then s.procs[id := Linked(p, pid)] else s.procs)
  {
    var p := s.procs[id];
    LiteralEscape(p.cmdline);
    EscapeHasNoGroup(p.cmdline);
    assert forall t :: m(Escape(p.cmdline), t) <==> t == p.cmdline;
    forall q | q in s.procs && Named(s.procs[q], cid, p.name) && m(Escape(p.cmdline), s.procs[q].cmdline)
      ensures q == id
    {
      assert SameKey(s.procs[q], p.cid, p.name, p.cmdline);
    }
    assert !Overlaps(m, s, cid, p.name, Escape(p.cmdline), None);
    hide Escape, HasGroupExtension, PatternTaken, Overlaps;
    var (s', outcome) := MarkKnown(m, s, cid, id, pid, segments);
    if outcome == Ok {
      assert s'.procs == s.procs[id := Linked(p, pid)];
    }
  }

  /** A process marked known and then unknown cannot be marked known again: its pattern still exists. */
  lemma MarkingAgainFails(m: Matcher, s: Store, cid: string, id: Id, pid: Id, pid2: Id, segments: string)
    requires Invariant(m, s) && Conforming(m) && pid !in s.pats && pid2 !in s.pats && pid != pid2
    requires id in s.procs && s.procs[id].cid == cid && s.procs[id].pattern.None?
    requires MarkKnown(m, s, cid, id, pid, segments).1 == Ok
    ensures var known := MarkKnown(m, s, cid, id, pid, segments).0;
            MarkKnown(m, MarkUnknown(known, cid, id), cid, id, pid2, segments)
            == (MarkUnknown(known, cid, id), Duplicate)
  {
    MarkKnownLinksOne(m, s, cid, id, pid, segments);
    var known := MarkKnown(m, s, cid, id, pid, segments).0;
    CreateKeeps(m, s, pid, cid, s.procs[id].name, Escape(s.procs[id].cmdline), segments);
    StepKeeps(m, known, OpMarkUnknown(cid, id));
    var s2 := MarkUnknown(known, cid, id);
    hide Escape, SafeRegex, LinkIn, Free, Conforming;
    assert s2.pats[pid].regex == Escape(s2.procs[id].cmdline);
    assert PatternTaken(s2, cid, s2.procs[id].name, Escape(s2.procs[id].cmdline), None);
    MarkKnownLinksOne(m, s2, cid, id, pid2, segments);
  }
}
