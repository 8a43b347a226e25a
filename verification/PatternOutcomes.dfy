/** What the pattern operations answer and leave behind, told on the rows themselves: exactly which requests
    are refused, and how often a process was seen, over every run. */
module PatternOutcomes {
  import opened Text
  import opened Patterns

  // ---- refusals ----

  /** A process of that compartment and name belongs to a pattern other than the one being changed, and the
      new text fully matches it too. */
  ghost predicate Steals(m: Matcher, s: Store, cid: string, name: string, regex: string, but: Option<Id>) {
    exists q :: q in s.procs && s.procs[q].cid == cid && s.procs[q].name == name && m(regex, s.procs[q].cmdline)
                && s.procs[q].pattern.Some? && s.procs[q].pattern != but
  }

  /** A pattern of that compartment and name, other than the one being changed, has that text. */
  ghost predicate SameText(s: Store, cid: string, name: string, regex: string, but: Option<Id>) {
    exists t :: t in s.pats && Some(t) != but && s.pats[t].cid == cid && s.pats[t].name == name
                && s.pats[t].regex == regex
  }

  lemma OverlapsIff(m: Matcher, s: Store, cid: string, name: string, regex: string, but: Option<Id>)
    requires Invariant(m, s)
    ensures Overlaps(m, s, cid, name, regex, but) <==> Steals(m, s, cid, name, regex, but)
  {
    hide Unique, Covers;
  }

  lemma TakenIff(s: Store, cid: string, name: string, regex: string, but: Option<Id>)
    ensures PatternTaken(s, cid, name, regex, but) <==> SameText(s, cid, name, regex, but)
  {
  }

  /** Creating a pattern is refused exactly when it would also match a process that belongs to a pattern, or
      when its text exists already. */
  lemma CreateOutcomeIff(m: Matcher, s: Store, pid: Id, cid: string, name: string, regex: string, segments: string)
    requires Invariant(m, s)
    ensures var outcome := Create(m, s, pid, cid, name, regex, segments).1;
            && (outcome == Overlap <==> Steals(m, s, cid, name, regex, None))
            && (outcome == Duplicate <==> !Steals(m, s, cid, name, regex, None) && SameText(s, cid, name, regex, None))
            && (outcome == Ok <==> !Steals(m, s, cid, name, regex, None) && !SameText(s, cid, name, regex, None))
  {
    OverlapsIff(m, s, cid, name, regex, None);
    TakenIff(s, cid, name, regex, None);
    hide Overlaps, PatternTaken, Steals, SameText, Invariant;
  }

  /** Updating a pattern of the compartment is refused exactly when its new text would also match a process that
      belongs to another pattern, or is another's text. Its own processes never stand in the way. */
  lemma UpdateOutcomeIff(m: Matcher, s: Store, cid: string, pid: Id, regex: string, segments: string)
    requires Invariant(m, s)
    ensures var outcome := Update(m, s, cid, pid, regex, segments).1;
            && (outcome == NotFound <==> !(pid in s.pats && s.pats[pid].cid == cid))
            && (outcome != NotFound ==>
                  var name := s.pats[pid].name;
                  var steals := Steals(m, s, cid, name, regex, Some(pid));
                  var same := SameText(s, cid, name, regex, Some(pid));
                  (outcome == Overlap <==> steals) && (outcome == Duplicate <==> !steals && same)
                  && (outcome == Ok <==> !steals && !same))
  {
    if pid in s.pats {
      OverlapsIff(m, s, cid, s.pats[pid].name, regex, Some(pid));
      TakenIff(s, cid, s.pats[pid].name, regex, Some(pid));
    }
    hide Overlaps, PatternTaken, Steals, SameText, Invariant, LinkIn, UnlinkIn, Free, LinkedTo;
  }

  /** Marking a process known answers: not found outside its compartment, the pattern it is already linked to,
      unsafe text, or what creating a pattern of its escaped command line answers. */
  lemma MarkKnownOutcomeIff(m: Matcher, s: Store, cid: string, id: Id, pid: Id, segments: string)
    requires Invariant(m, s) && Conforming(m) && pid !in s.pats
    ensures var (s', outcome) := MarkKnown(m, s, cid, id, pid, segments);
            var mine := id in s.procs && s.procs[id].cid == cid;
            && (outcome == NotFound <==> !mine)
            && (mine && s.procs[id].pattern.Some? ==> outcome == Existing(s.procs[id].pattern.value) && s' == s)
            && (mine && s.procs[id].pattern.None? ==>
                  var p := s.procs[id];
                  var unsafe := '\0' in p.cmdline || '\r' in p.cmdline || |Escape(p.cmdline)| > 10000;
                  (outcome == Unsafe <==> unsafe)
                  && (outcome == Duplicate <==> !unsafe && SameText(s, cid, p.name, Escape(p.cmdline), None))
                  && (outcome == Ok <==> !unsafe && !SameText(s, cid, p.name, Escape(p.cmdline), None))
                  && (outcome == Ok ==> s'.pats == s.pats[pid := Pattern(cid, p.name, Escape(p.cmdline), segments)]))
  {
    if id in s.procs && s.procs[id].cid == cid && s.procs[id].pattern.None? {
      var p := s.procs[id];
      MarkKnownLinksOne(m, s, cid, id, pid, segments);
      EscapeHasNoGroup(p.cmdline);
      TakenIff(s, cid, p.name, Escape(p.cmdline), None);
    }
    hide PatternTaken, SameText, Escape, HasGroupExtension, Conforming, Unique, LinkIn, Free, Overlaps;
  }

  // ---- what the other operations do to each row ----

  /** Deleting a pattern unlinks all its processes, whichever compartment is named, and removes it only from its own. */
  lemma DeletePatternIs(s: Store, cid: string, pid: Id)
    ensures var s' := DeletePattern(s, cid, pid);
            && s'.procs.Keys == s.procs.Keys
            && (forall q :: q in s.procs && s.procs[q].pattern != Some(pid) ==> s'.procs[q] == s.procs[q])
            && (forall q :: q in s.procs && s.procs[q].pattern == Some(pid) ==>
                  !s'.procs[q].known && s'.procs[q].pattern == None
                  && s'.procs[q].(known := s.procs[q].known, pattern := Some(pid)) == s.procs[q])
            && (pid in s'.pats <==> pid in s.pats && s.pats[pid].cid != cid)
            && (forall t :: t != pid ==> (t in s'.pats <==> t in s.pats) && (t in s.pats ==> s'.pats[t] == s.pats[t]))
  {
  }

  /** Marking unknown and deleting touch that one process, and only when it is in the named compartment. */
  lemma MarkUnknownIs(s: Store, cid: string, id: Id)
    ensures var s' := MarkUnknown(s, cid, id);
            && s'.pats == s.pats && s'.procs.Keys == s.procs.Keys
            && (forall q :: q in s.procs && (q != id || s.procs[q].cid != cid) ==> s'.procs[q] == s.procs[q])
            && (id in s.procs && s.procs[id].cid == cid ==> !s'.procs[id].known && s'.procs[id].pattern == None)
            && (forall q ::
                  q in DeleteProcess(s, cid, id).procs <==> q in s.procs && (q != id || s.procs[q].cid != cid))
            && DeleteProcess(s, cid, id).pats == s.pats
  {
  }

  /** Dropping a compartment removes its processes and patterns, and only those; no link to a removed pattern stays. */
  lemma DropCompartmentIs(m: Matcher, s: Store, cid: string)
    requires Invariant(m, s)
    ensures var s' := DropCompartment(s, cid);
            && (forall q :: q in s'.procs <==> q in s.procs && s.procs[q].cid != cid)
            && (forall q :: q in s'.procs ==> s'.procs[q] == s.procs[q])
            && (forall t :: t in s'.pats <==> t in s.pats && s.pats[t].cid != cid)
            && (forall t :: t in s'.pats ==> s'.pats[t] == s.pats[t])
  {
    hide Unique;
  }

  /** A default pattern is stored unless its compartment has it, and links nothing. */
  lemma SeedIs(s: Store, pid: Id, cid: string, name: string, regex: string)
    requires pid !in s.pats
    ensures var s' := Seed(s, pid, cid, name, regex);
            && s'.procs == s.procs
            && (pid in s'.pats <==> !SameText(s, cid, name, regex, None))
            && (forall t :: t in s.pats ==> t in s'.pats && s'.pats[t] == s.pats[t])
            && (pid in s'.pats ==> s'.pats[pid].cid == cid && s'.pats[pid].name == name && s'.pats[pid].regex == regex)
  {
    TakenIff(s, cid, name, regex, None);
    hide PatternTaken, SameText;
  }

  // ---- how often a process was seen ----

  predicate Sees(op: Op, cid: string, name: string, cmdline: string) {
    op.OpUpsert? && op.cid == cid && op.name == name && op.cmdline == cmdline
  }

  /** How many of the operations report a process with that key. */
  function Sightings(ops: seq<Op>, cid: string, name: string, cmdline: string): nat {
    if ops == [] then 0
    else Sightings(ops[..|ops| - 1], cid, name, cmdline)
         + if Sees(ops[|ops| - 1], cid, name, cmdline) then 1 else 0
  }

  /** A row keeps its key; its counter goes up with every sighting and with nothing else, and starts at one. */
  lemma SeenStep(m: Matcher, s: Store, op: Op, q: Id)
    requires Fresh(s, op) && q in Step(m, s, op).procs
    ensures var p' := Step(m, s, op).procs[q];
            if q in s.procs
            then var p := s.procs[q];
                 SameKey(p', p.cid, p.name, p.cmdline)
                 && p'.seen == p.seen + if Sees(op, p.cid, p.name, p.cmdline) then 1 else 0
            else op == OpUpsert(q, p'.cid, p'.name, p'.cmdline) && p'.seen == 1
  {
    hide FirstMatch, Overlaps, PatternTaken, Escape, SafeRegex;
    match op
    case OpUpsert(id, cid, name, cmdline) =>
      if q in s.procs && Sees(op, s.procs[q].cid, s.procs[q].name, s.procs[q].cmdline) {
        assert SameKey(s.procs[q], cid, name, cmdline);
      }
    case _ =>
  }

  lemma SightingsSnoc(ops: seq<Op>, op: Op, n: nat, cid: string, name: string, cmdline: string)
    requires n <= |ops|
    ensures Sightings((ops + [op])[n..], cid, name, cmdline)
         == Sightings(ops[n..], cid, name, cmdline) + if Sees(op, cid, name, cmdline) then 1 else 0
  {
    var part := (ops + [op])[n..];
    assert part[..|part| - 1] == ops[n..] && part[|part| - 1] == op;
  }

  /** In every run a stored process was inserted by one sighting, and its counter says how often it has been
      reported since, that time included. */
  lemma {:induction false} SeenCounts(m: Matcher, ops: seq<Op>, q: Id) returns (n: nat)
    requires FreshRun(m, EMPTY, ops) && q in Steps(m, EMPTY, ops).procs
    ensures var p := Steps(m, EMPTY, ops).procs[q];
            n < |ops| && ops[n] == OpUpsert(q, p.cid, p.name, p.cmdline)
            && p.seen == Sightings(ops[n..], p.cid, p.name, p.cmdline)
  {
    hide *;
    LastStep(m, ops, q);
    var front, last := ops[..|ops| - 1], ops[|ops| - 1];
    var s, p := Steps(m, EMPTY, front), Steps(m, EMPTY, ops).procs[q];
    assert ops == front + [last];
    FrontFresh(m, ops);
    SeenStep(m, s, last, q);
    if q in s.procs {
      n := SeenCounts(m, front, q);
      KeyIs(s.procs[q], p);
      SightingsSnoc(front, last, n, p.cid, p.name, p.cmdline);
    } else {
      n := |front|;
      SightingsSnoc(front, last, n, p.cid, p.name, p.cmdline);
      assert front[n..] == [];
      ItSees(last, q, p);
      NoSightings(p);
    }
  }

  lemma ItSees(op: Op, q: Id, p: Process)
    requires op == OpUpsert(q, p.cid, p.name, p.cmdline)
    ensures Sees(op, p.cid, p.name, p.cmdline)
  {
  }

  lemma KeyIs(p: Process, p': Process)
    requires SameKey(p', p.cid, p.name, p.cmdline)
    ensures p.cid == p'.cid && p.name == p'.name && p.cmdline == p'.cmdline
  {
  }

  lemma LastStep(m: Matcher, ops: seq<Op>, q: Id)
    requires q in Steps(m, EMPTY, ops).procs
    ensures ops != [] && Steps(m, EMPTY, ops) == Step(m, Steps(m, EMPTY, ops[..|ops| - 1]), ops[|ops| - 1])
  {
    hide Step;
  }

  lemma NoSightings(p: Process)
    ensures Sightings([], p.cid, p.name, p.cmdline) == 0
  {
  }

  lemma FrontFresh(m: Matcher, ops: seq<Op>)
    requires FreshRun(m, EMPTY, ops) && ops != []
    ensures FreshRun(m, EMPTY, ops[..|ops| - 1]) && Fresh(Steps(m, EMPTY, ops[..|ops| - 1]), ops[|ops| - 1])
  {
    hide Fresh, Steps;
    var front := ops[..|ops| - 1];
    forall n | 0 <= n < |front| ensures Fresh(Steps(m, EMPTY, front[..n]), front[n]) {
      assert front[..n] == ops[..n];
    }
  }

  /** A process is new exactly when no row has its key; it is then linked to the first pattern, oldest first, of
      its compartment and name that matches it, if there is one. */
  lemma UpsertIsNewIff(m: Matcher, s: Store, id: Id, cid: string, name: string, cmdline: string)
    requires Invariant(m, s) && id !in s.procs
    ensures var (s', isNew) := Upsert(m, s, id, cid, name, cmdline);
            && (isNew <==> !exists q :: q in s.procs && s.procs[q].cid == cid && s.procs[q].name == name
                                        && s.procs[q].cmdline == cmdline)
            && (isNew ==> id in s'.procs && s'.procs[id].seen == 1 && SameKey(s'.procs[id], cid, name, cmdline))
            && (isNew ==> forall n :: 0 <= n < |s.order| && Oldest(m, s, s.order, n, cid, name, cmdline) ==>
                            s'.procs[id].pattern == Some(s.order[n]) && s'.procs[id].known)
            && (isNew && (forall n :: 0 <= n < |s.order| ==> !MatchedBy(m, s, s.order[n], cid, name, cmdline)) ==>
                  s'.procs[id].pattern == None && !s'.procs[id].known)
  {
    FirstMatchIsOldest(m, s, s.order, cid, name, cmdline);
    hide FirstMatch, MatchedBy, Oldest, Invariant;
  }

  /** The pattern at n matches and no older one does. */
  ghost predicate Oldest(m: Matcher, s: Store, order: seq<Id>, n: nat, cid: string, name: string, cmdline: string)
    requires n < |order|
  {
    MatchedBy(m, s, order[n], cid, name, cmdline)
    && forall k :: 0 <= k < n ==> !MatchedBy(m, s, order[k], cid, name, cmdline)
  }

  predicate MatchedBy(m: Matcher, s: Store, t: Id, cid: string, name: string, cmdline: string) {
    t in s.pats && s.pats[t].cid == cid && s.pats[t].name == name && m(s.pats[t].regex, cmdline)
  }

  lemma {:induction false} FirstMatchIsOldest(m: Matcher, s: Store, order: seq<Id>, cid: string, name: string,
                                              cmdline: string)
    ensures forall n :: 0 <= n < |order| && Oldest(m, s, order, n, cid, name, cmdline) ==>
              FirstMatch(m, s, order, cid, name, cmdline) == Some(order[n])
    ensures (forall n :: 0 <= n < |order| ==> !MatchedBy(m, s, order[n], cid, name, cmdline)) ==>
              FirstMatch(m, s, order, cid, name, cmdline) == None
  {
    if order != [] {
      var rest := order[1..];
      FirstMatchIsOldest(m, s, rest, cid, name, cmdline);
      assert forall k :: 0 <= k < |rest| ==> rest[k] == order[k + 1];
      if !MatchedBy(m, s, order[0], cid, name, cmdline) {
        forall n | 0 <= n < |order| && Oldest(m, s, order, n, cid, name, cmdline)
          ensures FirstMatch(m, s, order, cid, name, cmdline) == Some(order[n])
        {
          assert rest[n - 1] == order[n];
        }
      }
    }
  }
}
