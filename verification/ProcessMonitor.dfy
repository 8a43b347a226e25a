/** The process and pattern functions of compartment_manager.py, row by row. Each is proved to be
    the step of Patterns that the theorems there are about. */
module ProcessMonitor {
  import opened Text
  import opened Patterns

  class Monitor {
    const fullmatch: Matcher
    var procs: map<Id, Process>
    var pats: map<Id, Pattern>
    var order: seq<Id>

    constructor (fullmatch: Matcher)
      ensures this.fullmatch == fullmatch && View() == EMPTY
    {
      this.fullmatch := fullmatch;
      procs, pats, order := map[], map[], [];
    }

    function View(): Store
      reads this
    {
      Store(procs, pats, order)
    }

    /** match_process_against_patterns over list_process_patterns */
    method MatchAgainstPatterns(cid: string, name: string, cmdline: string) returns (found: Option<Id>)
      ensures found == FirstMatch(fullmatch, View(), order, cid, name, cmdline)
    {
      for i := 0 to |order|
        invariant FirstMatch(fullmatch, View(), order, cid, name, cmdline)
               == FirstMatch(fullmatch, View(), order[i..], cid, name, cmdline)
      {
        if order[i] in pats && pats[order[i]].cid == cid {
          var p := pats[order[i]];
          if p.name == name {
            if fullmatch(p.regex, cmdline) {
              return Some(order[i]);
            }
          }
        }
      }
      return None;
    }

    method UpsertProcess(id: Id, cid: string, name: string, cmdline: string) returns (isNew: bool)
      modifies this
      ensures (View(), isNew) == Upsert(fullmatch, old(View()), id, cid, name, cmdline)
    {
      hide FirstMatch;
      if !Seen(View(), cid, name, cmdline) {
        var match_ := MatchAgainstPatterns(cid, name, cmdline);
        procs := procs[id := Process(cid, name, cmdline, match_.Some?, match_, 1)];
        return true;
      } else {
        procs := map q | q in procs ::
          if SameKey(procs[q], cid, name, cmdline) then procs[q].(seen := procs[q].seen + 1) else procs[q];
        return false;
      }
    }

    /** _check_pattern_overlap: the pattern of the first conflicting process found, if any */
    method CheckPatternOverlap(cid: string, name: string, regex: string, exclude: Option<Id>)
      returns (conflict: Option<Id>)
      ensures conflict.Some? <==> Overlaps(fullmatch, View(), cid, name, regex, exclude)
      ensures conflict.Some? ==> conflict.value in pats
    {
      var rows := set q | q in procs && Named(procs[q], cid, name) && procs[q].pattern.Some?;
      var todo := rows;
      while todo != {}
        invariant todo <= rows
        invariant forall q :: q in rows - todo ==>
                    !(procs[q].pattern != exclude && fullmatch(regex, procs[q].cmdline)
                      && procs[q].pattern.value in pats)
        decreases |todo|
      {
        var q :| q in todo;
        todo := todo - {q};
        if procs[q].pattern == exclude {
          continue;
        }
        if fullmatch(regex, procs[q].cmdline) {
          if procs[q].pattern.value in pats {
            return Some(procs[q].pattern.value);
          }
        }
      }
      return None;
    }

    lemma LinkOne(before: map<Id, Process>, done: set<Id>, q: Id, regex: string, pid: Id)
      requires q in before && q !in done
      ensures var linked := LinkIn(fullmatch, before, done, regex, pid);
              q in linked && linked[q] == before[q]
              && LinkIn(fullmatch, before, done + {q}, regex, pid)
                 == if fullmatch(regex, before[q].cmdline) then linked[q := Linked(before[q], pid)] else linked
    {
    }

    lemma LinkNone(before: map<Id, Process>, regex: string, pid: Id)
      ensures LinkIn(fullmatch, before, {}, regex, pid) == before
    {
    }

    /** Set known and the link on every selected row the regex matches. */
    method LinkRows(rows: set<Id>, regex: string, pid: Id)
      requires rows <= procs.Keys
      modifies `procs
      ensures procs == LinkIn(fullmatch, old(procs), rows, regex, pid)
    {
      hide LinkIn;
      var todo := rows;
      ghost var before, done := procs, {};
      LinkNone(procs, regex, pid);
      while todo != {}
        invariant todo !! done && todo + done == rows && procs == LinkIn(fullmatch, before, done, regex, pid)
        decreases |todo|
      {
        var q :| q in todo;
        LinkOne(before, done, q, regex, pid);
        if fullmatch(regex, procs[q].cmdline) {
          procs := procs[q := Linked(procs[q], pid)];
        }
        todo, done := todo - {q}, done + {q};
      }
    }

    lemma UnlinkOne(before: map<Id, Process>, done: set<Id>, q: Id, regex: string)
      requires q in before && q !in done
      ensures var unlinked := UnlinkIn(fullmatch, before, done, regex);
              q in unlinked && unlinked[q] == before[q]
              && UnlinkIn(fullmatch, before, done + {q}, regex)
                 == if fullmatch(regex, before[q].cmdline) then unlinked else unlinked[q := Unlinked(before[q])]
    {
    }

    lemma UnlinkNone(before: map<Id, Process>, regex: string)
      ensures UnlinkIn(fullmatch, before, {}, regex) == before
    {
    }

    /** Clear known and the link on every selected row the regex does not match. */
    method UnlinkRows(rows: set<Id>, regex: string)
      requires rows <= procs.Keys
      modifies `procs
      ensures procs == UnlinkIn(fullmatch, old(procs), rows, regex)
    {
      hide UnlinkIn;
      var todo := rows;
      ghost var before, done := procs, {};
      UnlinkNone(procs, regex);
      while todo != {}
        invariant todo !! done && todo + done == rows && procs == UnlinkIn(fullmatch, before, done, regex)
        decreases |todo|
      {
        var q :| q in todo;
        UnlinkOne(before, done, q, regex);
        if !fullmatch(regex, procs[q].cmdline) {
          procs := procs[q := Unlinked(procs[q])];
        }
        todo, done := todo - {q}, done + {q};
      }
    }

    method CreateProcessPattern(pid: Id, cid: string, name: string, regex: string, segments: string)
      returns (outcome: Outcome)
      modifies this
      ensures (View(), outcome) == Create(fullmatch, old(View()), pid, cid, name, regex, segments)
    {
      hide Overlaps, PatternTaken, LinkIn;
      var conflict := CheckPatternOverlap(cid, name, regex, None);
      if conflict.Some? {
        return Overlap;
      }
      if PatternTaken(View(), cid, name, regex, None) {
        return Duplicate;
      }
      pats, order := pats[pid := Pattern(cid, name, regex, segments)], order + [pid];
      LinkRows(Free(procs, cid, name), regex, pid);
      return Ok;
    }

    method UpdateProcessPattern(cid: string, pid: Id, regex: string, segments: string) returns (outcome: Outcome)
      modifies this
      ensures (View(), outcome) == Update(fullmatch, old(View()), cid, pid, regex, segments)
    {
      hide Overlaps, PatternTaken;
      if pid !in pats || pats[pid].cid != cid {
        return NotFound;
      }
      var name := pats[pid].name;
      var conflict := CheckPatternOverlap(cid, name, regex, Some(pid));
      if conflict.Some? {
        return Overlap;
      }
      if PatternTaken(View(), cid, name, regex, Some(pid)) {
        return Duplicate;
      }
      pats := pats[pid := pats[pid].(regex := regex, segments := segments)];
      UnlinkRows(LinkedTo(procs, pid), regex);
      LinkRows(Free(procs, cid, name), regex, pid);
      return Ok;
    }

    method DeleteProcessPattern(cid: string, pid: Id)
      modifies this
      ensures View() == DeletePattern(old(View()), cid, pid)
    {
      procs := map q | q in procs :: if procs[q].pattern == Some(pid) then Unlinked(procs[q]) else procs[q];
      if pid in pats && pats[pid].cid == cid {
        pats := pats - {pid};
      }
    }

    /** set_process_known; pid is the id a new pattern would get */
    method SetProcessKnown(cid: string, id: Id, known: bool, pid: Id, segments: string) returns (outcome: Outcome)
      modifies this
      ensures known ==> (View(), outcome) == MarkKnown(fullmatch, old(View()), cid, id, pid, segments)
      ensures !known ==> View() == MarkUnknown(old(View()), cid, id) && outcome == Ok
    {
      hide Create, SafeRegex, Escape;
      if known {
        if id !in procs || procs[id].cid != cid {
          return NotFound;
        }
        var row := procs[id];
        if row.pattern.Some? && row.pattern.value in pats {
          return Existing(row.pattern.value);
        }
        var escaped := Escape(row.cmdline);
        if !SafeRegex(escaped) {
          return Unsafe;
        }
        outcome := CreateProcessPattern(pid, cid, row.name, escaped, segments);
      } else {
        if id in procs && procs[id].cid == cid {
          procs := procs[id := Unlinked(procs[id])];
        }
        return Ok;
      }
    }
  }
}
