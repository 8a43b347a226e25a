/** Exactly when a status lookup is answered from the cache, over every run that leaves room, what a full cache
    forgets, and what the property lines and first lines of status blocks say (systemd_manager.py). */
module StatusFreshness {
  import opened Text
  import opened StatusCache

  // ---- when an entry may still be used ----

  predicate Reporting<V>(step: Step<V>, sid: Slug, u: UnitName) {
    step.Ask? && step.sid == sid && u in Found(step.pairs)
  }

  /** Step i is the latest to report the unit, and the unit was not invalidated since. */
  ghost predicate LatestReport<V>(run: seq<Step<V>>, sid: Slug, u: UnitName, i: nat) {
    i < |run| && Reporting(run[i], sid, u)
    && forall k :: i < k < |run| ==> !Reporting(run[k], sid, u) && run[k] != Drop(sid, u)
  }

  /** Every batch of the run found room for all it reported. */
  ghost predicate AlwaysRoom<V>(ttl: real, max: nat, run: seq<Step<V>>) {
    forall k :: 0 <= k < |run| && run[k].Ask? ==> |After(ttl, max, run[..k])| + |run[k].pairs| <= max
  }

  lemma RoomPrefix<V>(ttl: real, max: nat, run: seq<Step<V>>)
    requires run != [] && AlwaysRoom(ttl, max, run)
    ensures AlwaysRoom(ttl, max, run[..|run| - 1])
    ensures var last := run[|run| - 1]; last.Ask? ==> |After(ttl, max, run[..|run| - 1])| + |last.pairs| <= max
  {
    hide After;
    var before := run[..|run| - 1];
    forall k | 0 <= k < |before| && before[k].Ask? ensures |After(ttl, max, before[..k])| + |before[k].pairs| <= max {
      assert before[..k] == run[..k];
    }
  }

  lemma StepWithRoom<V>(c: Cache<V>, ttl: real, max: nat, step: Step<V>, sid: Slug, u: UnitName)
    requires step.Ask? ==> |c| + |step.pairs| <= max
    ensures var c' := Next(c, ttl, max, step);
            if Reporting(step, sid, u) then (sid, u) in c' && c'[(sid, u)] == (step.now, Found(step.pairs)[u])
            else if step == Drop(sid, u) then (sid, u) !in c'
            else ((sid, u) in c' <==> (sid, u) in c) && ((sid, u) in c ==> c'[(sid, u)] == c[(sid, u)])
  {
    if step.Ask? { RoomKeepsAll(c, max, step.sid, step.now, step.pairs, (sid, u)); }
    hide PutAll, Found;
  }

  lemma LatestSnoc<V>(run: seq<Step<V>>, sid: Slug, u: UnitName, i: nat)
    requires run != []
    ensures var n, last := |run| - 1, run[|run| - 1];
            LatestReport(run, sid, u, i)
            <==> if Reporting(last, sid, u) then i == n
                 else last != Drop(sid, u) && LatestReport(run[..n], sid, u, i)
  {
    hide Reporting;
    var n := |run| - 1;
    assert forall k :: 0 <= k < n ==> run[..n][k] == run[k];
  }

  /** While there was room, a unit has an entry exactly when some step reported it and nothing invalidated it
      since, and the entry holds what the latest such step reported and when. */
  lemma {:induction false} EntryIff<V>(ttl: real, max: nat, run: seq<Step<V>>, sid: Slug, u: UnitName)
    requires AlwaysRoom(ttl, max, run)
    ensures (sid, u) in After(ttl, max, run) <==> exists i: nat :: LatestReport(run, sid, u, i)
    ensures forall i: nat :: LatestReport(run, sid, u, i) ==>
              (sid, u) in After(ttl, max, run)
              && After(ttl, max, run)[(sid, u)] == (run[i].now, Found(run[i].pairs)[u])
  {
    if run != [] {
      var n, last := |run| - 1, run[|run| - 1];
      RoomPrefix(ttl, max, run);
      EntryIff(ttl, max, run[..n], sid, u);
      StepWithRoom(After(ttl, max, run[..n]), ttl, max, last, sid, u);
      forall i: nat ensures LatestReport(run, sid, u, i)
          <==> if Reporting(last, sid, u) then i == n else last != Drop(sid, u) && LatestReport(run[..n], sid, u, i)
      {
        LatestSnoc(run, sid, u, i);
      }
      assert forall i: nat :: LatestReport(run[..n], sid, u, i) ==> i < n && run[..n][i] == run[i];
      hide Next, Found, LatestReport, AlwaysRoom;
    }
  }

  /** While there was room, a lookup is answered from the cache exactly when the unit's latest report is less than
      TTL old and the unit was not invalidated since; it is then answered with that report. */
  lemma FreshIff<V>(ttl: real, max: nat, run: seq<Step<V>>, sid: Slug, u: UnitName, now: real)
    requires AlwaysRoom(ttl, max, run)
    ensures Fresh(After(ttl, max, run), ttl, (sid, u), now).Some?
       <==> exists i: nat :: LatestReport(run, sid, u, i) && now - run[i].now < ttl
    ensures forall i: nat :: LatestReport(run, sid, u, i) && now - run[i].now < ttl ==>
              Fresh(After(ttl, max, run), ttl, (sid, u), now) == Some(Found(run[i].pairs)[u])
  {
    EntryIff(ttl, max, run, sid, u);
    hide After, Found, AlwaysRoom;
    if Fresh(After(ttl, max, run), ttl, (sid, u), now).Some? {
      var i: nat :| LatestReport(run, sid, u, i);
      assert now - run[i].now < ttl;
    }
  }

  /** Storing a batch into a full cache forgets every compartment's entries: only what the batch reports is left. */
  lemma FullForgets<V>(c: Cache<V>, max: nat, sid: Slug, now: real, pairs: seq<(UnitName, V)>, key: (Slug, UnitName))
    requires |c| >= max && pairs != [] && key in PutAll(c, max, sid, now, pairs)
    ensures key.0 == sid && exists v :: (key.1, v) in pairs && PutAll(c, max, sid, now, pairs)[key] == (now, v)
  {
    var first := (sid, pairs[0].0);
    assert Put(c, max, first, now, pairs[0].1) == map[first := (now, pairs[0].1)];
    PutAllOrigin(Put(c, max, first, now, pairs[0].1), max, sid, now, pairs[1..], key);
    var entry := PutAll(c, max, sid, now, pairs)[key];
    hide PutAll, Put;
    if key == first && entry == (now, pairs[0].1) {
      assert (key.1, entry.1) in pairs;
    } else {
      assert (key.1, entry.1) in pairs[1..];
      assert (key.1, entry.1) in pairs;
    }
  }

  // ---- property lines ----

  /** Line i says key=value, or is key alone, and no later line says anything of that key. */
  ghost predicate LastOf(lines: seq<string>, i: nat, key: string, value: string) {
    i < |lines| && Says(lines[i], key, value)
    && forall k :: i < k < |lines| ==> forall v :: !Says(lines[k], key, v)
  }

  /** The line reads "key=value" with no "=" in the key, or "key" with no "=" at all and no value. */
  predicate Says(line: string, key: string, value: string) {
    key != "" && '=' !in key && (line == key + "=" + value || (line == key && value == ""))
  }

  predicate SaysAt(line: string, key: string, value: string) {
    var i := IndexOf(line, '=');
    i > 0 && key == line[..i] && value == if i < |line| then line[i + 1..] else ""
  }

  lemma SaysWhere(line: string, key: string, value: string)
    requires Says(line, key, value)
    ensures SaysAt(line, key, value)
  {
    assert forall k :: 0 <= k < |key| ==> key[k] in key;
    assert forall k :: 0 <= k < |key| ==> line[k] == key[k] != '=';
    if line == key + "=" + value {
      assert line[|key|] == '=' && line[|key| + 1..] == value && line[..|key|] == key;
    } else {
      assert line[..|key|] == key;
    }
    IndexOfUnique(line, '=', |key|);
    hide IndexOf;
  }

  lemma WhereSays(line: string, key: string, value: string)
    requires SaysAt(line, key, value)
    ensures Says(line, key, value)
  {
    var i := IndexOf(line, '=');
    assert forall k :: 0 <= k < i ==> key[k] == line[k] != '=';
    assert i < |line| ==> line == line[..i] + "=" + line[i + 1..];
    assert i == |line| ==> line[..i] == line;
    hide IndexOf;
  }

  /** What the last line adds to the properties. */
  lemma PropsStep(lines: seq<string>, key: string, value: string)
    requires lines != []
    ensures var line, before := lines[|lines| - 1], PropsOf(lines[..|lines| - 1]);
            var said := exists v :: Says(line, key, v);
            && (key in PropsOf(lines) <==> said || key in before)
            && (key in PropsOf(lines) ==>
                  (PropsOf(lines)[key] == value <==> Says(line, key, value) || (!said && before[key] == value)))
  {
    var line := lines[|lines| - 1];
    var i := IndexOf(line, '=');
    forall v ensures Says(line, key, v) <==> SaysAt(line, key, v) {
      if Says(line, key, v) { SaysWhere(line, key, v); }
      if SaysAt(line, key, v) { WhereSays(line, key, v); }
    }
    hide Says, IndexOf;
    if i > 0 && key == line[..i] {
      assert SaysAt(line, key, if i < |line| then line[i + 1..] else "");
    }
  }

  /** A property is read exactly when some line names it, with the value of the last line that does. */
  lemma {:induction false} PropertyIff(lines: seq<string>, key: string, value: string)
    ensures key in PropsOf(lines) && PropsOf(lines)[key] == value <==> exists i: nat :: LastOf(lines, i, key, value)
    ensures key in PropsOf(lines) <==> exists i, v :: 0 <= i < |lines| && Says(lines[i], key, v)
  {
    if lines != [] {
      var n := |lines| - 1;
      var front := lines[..n];
      PropertyIff(front, key, value);
      PropsStep(lines, key, value);
      LastOfSnoc(lines, key, value);
      hide Says, LastOf, PropsOf;
      assert forall k :: 0 <= k < n ==> front[k] == lines[k];
      if i, v :| 0 <= i < |front| && Says(front[i], key, v) { assert Says(lines[i], key, v); }
    }
  }

  lemma LastOfSnoc(lines: seq<string>, key: string, value: string)
    requires lines != []
    ensures var n, line := |lines| - 1, lines[|lines| - 1];
            (exists i: nat :: LastOf(lines, i, key, value))
            <==> Says(line, key, value)
                 || ((forall v :: !Says(line, key, v)) && exists i: nat :: LastOf(lines[..n], i, key, value))
  {
    hide Says;
    var n := |lines| - 1;
    var front := lines[..n];
    assert forall k :: 0 <= k < n ==> front[k] == lines[k];
    if Says(lines[n], key, value) { assert LastOf(lines, n, key, value); }
    if i: nat :| LastOf(lines, i, key, value) {
      if i < n { assert LastOf(front, i, key, value); }
    }
    if (forall v :: !Says(lines[n], key, v)) && exists i: nat :: LastOf(front, i, key, value) {
      var i: nat :| LastOf(front, i, key, value);
      assert LastOf(lines, i, key, value);
    }
  }
}
