/** Exactly when a session is still good, with its two limits in numbers (session.py): the answers of accesses,
    and what the reaper removes, told from the calls alone. */
module SessionLimits {
  import opened Text
  import opened Sessions

  // ---- how long a session lives ----

  /** A read of the session's credentials that the kernel keyring, which holds them, could not give back. */
  predicate Lost(created: Step, step: Step) {
    step.Credentials? && created.Create? && step.sid == created.sid && !step.readable
    && created.password != "" && created.keyring.Some?
  }

  /** Two accesses of the session with none between them. */
  ghost predicate Consecutive(run: seq<Step>, sid: Sid, j: nat, k: nat) {
    j < k < |run| && Accesses(run[j], sid) && Accesses(run[k], sid)
    && forall i :: j < i < k ==> !Accesses(run[i], sid)
  }

  /** Since its creation at c the session was neither deleted nor lost. */
  ghost predicate Intact(run: seq<Step>, sid: Sid, c: nat) {
    c < |run| && run[c].Create? && run[c].sid == sid
    && forall k :: c < k < |run| ==> run[k] != Delete(sid) && !Lost(run[c], run[k])
  }

  /** No two consecutive accesses since c are more than half of TTL apart. */
  ghost predicate KeptUp(ttl: nat, run: seq<Step>, sid: Sid, c: nat) {
    forall j: nat, k: nat :: c <= j && Consecutive(run, sid, j, k) ==> run[k].now - run[j].now <= (ttl / 2) as real
  }

  /** Intact, kept up, never created again, and never accessed later than TTL after its creation. */
  ghost predicate Alive(ttl: nat, run: seq<Step>, sid: Sid, c: nat) {
    Intact(run, sid, c) && KeptUp(ttl, run, sid, c)
    && (forall k :: c < k < |run| ==> !(run[k].Create? && run[k].sid == sid))
    && (forall k :: c < k < |run| && Accesses(run[k], sid) ==> run[k].now - run[c].now <= ttl as real)
  }

  /** j is the latest access. */
  ghost predicate Latest(run: seq<Step>, sid: Sid, j: nat) {
    j < |run| && Accesses(run[j], sid) && forall k :: j < k < |run| ==> !Accesses(run[k], sid)
  }

  /** The life at the end of the run is that of the session created at c and last accessed at j. */
  predicate LifeFrom(run: seq<Step>, life: Option<Life>, c: nat, j: nat)
    requires c < |run| && run[c].Create? && j < |run| && !run[j].Delete?
  {
    var created := run[c];
    life == Some(Life(created.username, created.csrf, created.password,
                      created.password != "" && created.keyring.Some?, created.now, run[j].now))
  }

  /** What a step must be for a life to go on. */
  predicate GoesOn(ttl: nat, run: seq<Step>, sid: Sid, c: nat, j: nat)
    requires c <= j < |run| - 1 && Accesses(run[c], sid) && Accesses(run[j], sid)
  {
    var last := run[|run| - 1];
    last != Delete(sid) && !Lost(run[c], last) && !(last.Create? && last.sid == sid)
    && (Accesses(last, sid) ==> last.now - run[j].now <= (ttl / 2) as real && last.now - run[c].now <= ttl as real)
  }

  lemma AliveGoesOn(ttl: nat, run: seq<Step>, sid: Sid, c: nat, j: nat)
    requires Alive(ttl, run, sid, c) && c <= j < |run| - 1 && Latest(run[..|run| - 1], sid, j)
    ensures Accesses(run[c], sid) && Accesses(run[j], sid) && GoesOn(ttl, run, sid, c, j)
  {
    assert forall k :: 0 <= k < |run| - 1 ==> run[..|run| - 1][k] == run[k];
    hide Lost;
    if Accesses(run[|run| - 1], sid) { assert Consecutive(run, sid, j, |run| - 1); }
  }

  lemma LifeGoesOn(ttl: nat, run: seq<Step>, sid: Sid, c: nat, j: nat)
    requires c <= j < |run| - 1 && run[c].Create? && run[c].sid == sid && Accesses(run[j], sid)
    requires GoesOn(ttl, run, sid, c, j) && LifeFrom(run[..|run| - 1], LifeOf(ttl, run[..|run| - 1], sid), c, j)
    ensures LifeFrom(run, LifeOf(ttl, run, sid), c, if Accesses(run[|run| - 1], sid) then |run| - 1 else j)
  {
    var life := LifeOf(ttl, run[..|run| - 1], sid);
    assert LifeOf(ttl, run, sid) == Lived(ttl, life, sid, run[|run| - 1]);
    hide LifeOf;
  }

  lemma LatestGrows(run: seq<Step>, sid: Sid, j: nat)
    requires run != [] && Latest(run[..|run| - 1], sid, j)
    ensures Latest(run, sid, if Accesses(run[|run| - 1], sid) then |run| - 1 else j)
  {
    hide Accesses;
    assert forall k :: 0 <= k < |run| - 1 ==> run[..|run| - 1][k] == run[k];
  }

  lemma JustCreated(ttl: nat, run: seq<Step>, sid: Sid)
    requires run != [] && run[|run| - 1].Create? && run[|run| - 1].sid == sid
    ensures var n := |run| - 1; Latest(run, sid, n) && LifeFrom(run, LifeOf(ttl, run, sid), n, n)
  {
  }

  /** An alive session gives a life, which began with its creation and was renewed by its latest access. */
  lemma {:induction false} AliveLives(ttl: nat, run: seq<Step>, sid: Sid, c: nat) returns (j: nat)
    requires Alive(ttl, run, sid, c)
    ensures c <= j && Latest(run, sid, j) && LifeFrom(run, LifeOf(ttl, run, sid), c, j)
  {
    hide KeptUp, Lost, LifeOf, GoesOn, Latest;
    if c == |run| - 1 {
      j := c;
      JustCreated(ttl, run, sid);
    } else {
      AlivePrefix(ttl, run, sid, c);
      j := AliveLives(ttl, run[..|run| - 1], sid, c);
      LatestIsIn(run[..|run| - 1], sid, j);
      AliveGoesOn(ttl, run, sid, c, j);
      LifeGoesOn(ttl, run, sid, c, j);
      LatestGrows(run, sid, j);
      if Accesses(run[|run| - 1], sid) {
        j := |run| - 1;
      }
    }
  }

  lemma LatestIsIn(run: seq<Step>, sid: Sid, j: nat)
    requires Latest(run, sid, j)
    ensures j < |run| && Accesses(run[j], sid)
  {
  }

  lemma AlivePrefix(ttl: nat, run: seq<Step>, sid: Sid, c: nat)
    requires Alive(ttl, run, sid, c) && c < |run| - 1
    ensures Alive(ttl, run[..|run| - 1], sid, c)
  {
    var before := run[..|run| - 1];
    forall j: nat, k: nat | c <= j && Consecutive(before, sid, j, k)
      ensures before[k].now - before[j].now <= (ttl / 2) as real {
      assert Consecutive(run, sid, j, k);
    }
  }

  /** A life is that of a session which is alive. */
  lemma {:induction false} LivesAlive(ttl: nat, run: seq<Step>, sid: Sid) returns (c: nat)
    requires LifeOf(ttl, run, sid).Some?
    ensures Alive(ttl, run, sid, c)
  {
    var before, last := run[..|run| - 1], run[|run| - 1];
    if last.Create? && last.sid == sid {
      c := |run| - 1;
    } else {
      c := LivesAlive(ttl, before, sid);
      var j := AliveLives(ttl, before, sid, c);
      StillGood(ttl, run, sid, c, j);
      AliveExtends(ttl, run, sid, c, j);
    }
  }

  lemma StillGood(ttl: nat, run: seq<Step>, sid: Sid, c: nat, j: nat)
    requires c <= j < |run| - 1 && run[c].Create? && run[c].sid == sid && Accesses(run[j], sid)
    requires LifeFrom(run[..|run| - 1], LifeOf(ttl, run[..|run| - 1], sid), c, j)
    requires LifeOf(ttl, run, sid).Some? && !(run[|run| - 1].Create? && run[|run| - 1].sid == sid)
    ensures GoesOn(ttl, run, sid, c, j)
  {
    var life := LifeOf(ttl, run[..|run| - 1], sid);
    assert LifeOf(ttl, run, sid) == Lived(ttl, life, sid, run[|run| - 1]);
    hide LifeOf;
  }

  lemma AliveExtends(ttl: nat, run: seq<Step>, sid: Sid, c: nat, j: nat)
    requires run != [] && Alive(ttl, run[..|run| - 1], sid, c) && Latest(run[..|run| - 1], sid, j) && c <= j
    requires GoesOn(ttl, run, sid, c, j)
    ensures Alive(ttl, run, sid, c)
  {
    GapsExtend(ttl, run, sid, c, j);
    IntactExtends(ttl, run, sid, c, j);
    hide Accesses, KeptUp, Latest, Intact;
    var before, n := run[..|run| - 1], |run| - 1;
    forall k | c < k < |run|
      ensures !(run[k].Create? && run[k].sid == sid)
      ensures Accesses(run[k], sid) ==> run[k].now - run[c].now <= ttl as real
    {
      if k < n { assert before[k] == run[k] && before[c] == run[c]; }
    }
  }

  lemma IntactExtends(ttl: nat, run: seq<Step>, sid: Sid, c: nat, j: nat)
    requires run != [] && Intact(run[..|run| - 1], sid, c) && c <= j < |run| - 1
    requires Accesses(run[c], sid) && Accesses(run[j], sid) && GoesOn(ttl, run, sid, c, j)
    ensures Intact(run, sid, c)
  {
    hide Accesses, Lost;
    var before := run[..|run| - 1];
    assert before[c] == run[c];
    forall k | c < k < |run| ensures run[k] != Delete(sid) && !Lost(run[c], run[k]) {
      if k < |run| - 1 { assert before[k] == run[k]; }
    }
  }

  lemma GapsExtend(ttl: nat, run: seq<Step>, sid: Sid, c: nat, j: nat)
    requires run != [] && Alive(ttl, run[..|run| - 1], sid, c) && Latest(run[..|run| - 1], sid, j) && c <= j
    requires GoesOn(ttl, run, sid, c, j)
    ensures KeptUp(ttl, run, sid, c)
  {
    hide Lost;
    forall i: nat, k: nat | c <= i && Consecutive(run, sid, i, k) ensures run[k].now - run[i].now <= (ttl / 2) as real {
      ConsecutiveAt(run, sid, i, k, j);
      if k < |run| - 1 {
        assert run[..|run| - 1][k] == run[k] && run[..|run| - 1][i] == run[i];
      }
    }
  }

  lemma ConsecutiveAt(run: seq<Step>, sid: Sid, i: nat, k: nat, j: nat)
    requires Consecutive(run, sid, i, k) && Latest(run[..|run| - 1], sid, j)
    ensures k < |run| - 1 ==> Consecutive(run[..|run| - 1], sid, i, k)
    ensures k == |run| - 1 ==> i == j
  {
    var before := run[..|run| - 1];
    hide Accesses;
    assert forall n :: 0 <= n < |before| ==> before[n] == run[n];
    assert Accesses(run[j], sid);
  }

  // ---- lawful runs: ids are given once and time goes forward ----

  lemma {:induction false} Earlier(ttl: nat, run: seq<Step>, i: nat)
    requires Lawful(ttl, run) && i < |run|
    ensures run[i].Create? ==> run[i].sid in After(ttl, run).issued
    ensures !run[i].Delete? ==> run[i].now <= After(ttl, run).clock
  {
    var before, last := run[..|run| - 1], run[|run| - 1];
    assert run == before + [last];
    Extend(ttl, before, last);
    if i < |before| {
      Earlier(ttl, before, i);
      IssuedKept(After(ttl, before), last);
      ClockGrows(After(ttl, before), last);
      hide Call, Enabled, After, Lawful;
    } else {
      hide GetStep, CredentialsStep, ReapStep, After, Lawful;
    }
  }

  lemma LawfulOrder(ttl: nat, run: seq<Step>, i: nat, k: nat)
    requires Lawful(ttl, run) && i < k < |run|
    ensures run[i].Create? && run[k].Create? ==> run[i].sid != run[k].sid
    ensures !run[i].Delete? && !run[k].Delete? ==> run[i].now <= run[k].now
  {
    var upto := run[..k];
    assert upto + [run[k]] + run[k + 1..] == run;
    LawfulPrefix(ttl, upto + [run[k]], run[k + 1..]);
    Extend(ttl, upto, run[k]);
    Earlier(ttl, upto, i);
    hide After, Lawful, Call;
  }

  // ---- the answers ----

  /** The access that ends the run comes at most TTL after the session's creation at c, which was neither deleted
      nor lost since, and no two consecutive accesses up to this one are more than half of TTL apart. */
  ghost predicate Usable(ttl: nat, run: seq<Step>, sid: Sid, c: nat) {
    c < |run| - 1 && Accesses(run[|run| - 1], sid) && Intact(run, sid, c) && KeptUp(ttl, run, sid, c)
    && run[|run| - 1].now - run[c].now <= ttl as real
  }

  lemma UsableIsAlive(ttl: nat, run: seq<Step>, sid: Sid, c: nat)
    requires Lawful(ttl, run) && c < |run| - 1 && Accesses(run[|run| - 1], sid)
    ensures Usable(ttl, run, sid, c) <==> Alive(ttl, run, sid, c)
  {
    hide Lawful, KeptUp, Lost;
    if run[c].Create? && run[c].sid == sid {
      forall k | c < k < |run|
        ensures !(run[k].Create? && run[k].sid == sid) && (Accesses(run[k], sid) ==> run[k].now <= run[|run| - 1].now)
      {
        LawfulOrder(ttl, run, c, k);
        if k < |run| - 1 { LawfulOrder(ttl, run, k, |run| - 1); }
      }
    }
  }

  /** What an access is answered, from the life it leaves. */
  lemma AnswerFromLife(ttl: nat, run: seq<Step>, step: Step)
    requires Lawful(ttl, run + [step]) && (step.Get? || step.Credentials?)
    ensures Call(After(ttl, run), step).1
         == match LifeOf(ttl, run + [step], step.sid)
            case None => Nothing
            case Some(x) =>
              if step.Get? then User(x.username)
              else if x.password == "" then Nothing else Login(x.username, x.password)
  {
    AnswersAreDue(ttl, run, step);
    assert (run + [step])[..|run|] == run && (run + [step])[|run|] == step;
    assert LifeOf(ttl, run + [step], step.sid) == Lived(ttl, LifeOf(ttl, run, step.sid), step.sid, step);
    hide LifeOf, After, Call, Lawful;
  }

  /** In every run an access is answered exactly when the session is usable, with the user it was created for, and
      a read of credentials exactly when it is and has a password, with that user and that password. */
  lemma AnsweredIff(ttl: nat, run: seq<Step>, step: Step)
    requires Lawful(ttl, run + [step]) && (step.Get? || step.Credentials?)
    ensures Call(After(ttl, run), step).1 != Nothing
       <==> exists c: nat :: Usable(ttl, run + [step], step.sid, c) && (step.Credentials? ==> run[c].password != "")
    ensures forall c: nat :: Usable(ttl, run + [step], step.sid, c) && (step.Credentials? ==> run[c].password != "") ==>
              Call(After(ttl, run), step).1
              == if step.Get? then User(run[c].username) else Login(run[c].username, run[c].password)
  {
    var all, sid := run + [step], step.sid;
    var answer := Call(After(ttl, run), step).1;
    AnswerFromLife(ttl, run, step);
    hide After, Call, Lawful, LifeOf, Alive, Usable, Latest;
    forall c: nat | Usable(ttl, all, sid, c)
      ensures c < |run| && run[c].Create? && LifeOf(ttl, all, sid).Some?
              && LifeOf(ttl, all, sid).value.username == run[c].username
              && LifeOf(ttl, all, sid).value.password == run[c].password
    {
      LifeOfUsable(ttl, run, step, c);
    }
    if LifeOf(ttl, all, sid).Some? {
      var c := LivesAlive(ttl, all, sid);
      NotJustCreated(ttl, run, step, c);
      UsableIsAlive(ttl, all, sid, c);
    }
  }

  lemma NotJustCreated(ttl: nat, run: seq<Step>, step: Step, c: nat)
    requires (step.Get? || step.Credentials?) && Alive(ttl, run + [step], step.sid, c)
    ensures c < |run + [step]| - 1
  {
    hide KeptUp, Lost;
  }

  lemma LifeOfUsable(ttl: nat, run: seq<Step>, step: Step, c: nat)
    requires (step.Get? || step.Credentials?) && Lawful(ttl, run + [step])
    requires Usable(ttl, run + [step], step.sid, c)
    ensures c < |run| && run[c].Create? && LifeOf(ttl, run + [step], step.sid).Some?
    ensures LifeOf(ttl, run + [step], step.sid).value.username == run[c].username
    ensures LifeOf(ttl, run + [step], step.sid).value.password == run[c].password
  {
    hide Lawful, LifeOf, KeptUp, Lost;
    UsableIsAlive(ttl, run + [step], step.sid, c);
    var j := AliveLives(ttl, run + [step], step.sid, c);
    assert (run + [step])[c] == run[c];
  }

  // ---- the reaper ----

  /** Removing an expired session takes both limits in numbers: a recheck removes its session exactly when it was
      created more than TTL ago or last accessed more than half of TTL ago, and touches no other. */
  lemma ReapRemovesIff(s: State, sid: Sid, now: real, d: Sid)
    requires d in s.sessions
    ensures var after := Call(s, Reap(sid, now)).0;
            (d !in after.sessions
             <==> d == sid && (now - s.sessions[d].createdAt > s.ttl as real
                               || now - s.sessions[d].lastSeen > (s.ttl / 2) as real))
            && (d in after.sessions ==> after.sessions[d] == s.sessions[d])
  {
  }

  /** The reaper's snapshot holds exactly the sessions past one of the two limits. */
  lemma SnapshotHoldsIff(s: State, now: real, d: Sid)
    ensures d in Call(s, Snapshot(now)).0.doomed
       <==> d in s.sessions && (now - s.sessions[d].createdAt > s.ttl as real
                                || now - s.sessions[d].lastSeen > (s.ttl / 2) as real)
  {
  }
}
