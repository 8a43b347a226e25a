/** The in-memory session store (session.py): absolute and idle expiry, and two places to keep the
    password, as a state machine over single calls. The reaper's snapshot and each of its rechecks are
    steps of their own, so other calls may fall between them. */
module Sessions {
  import opened Text

  type Sid = string
  type KeyId = nat  // serial number in the kernel keyring
  type Key = nat    // Fernet key

  /** A ciphertext opens under the key it was sealed with and under no other. */
  datatype Cipher = Cipher(key: Key, plain: string)

  datatype Session = Session(username: string, csrf: string, createdAt: real, lastSeen: real,
                             keyringId: Option<KeyId>, enc: Option<Cipher>)

  /** What the kernel keyring holds under an id; the description names the session. */
  datatype Secret = Secret(sid: Sid, payload: string)

  datatype State = State(
    ttl: nat,
    sessions: map<Sid, Session>,
    keys: map<Sid, Key>,
    vault: map<KeyId, Secret>,  // everything ever stored in the kernel keyring
    revoked: set<KeyId>,        // ids whose revocation was requested
    doomed: set<Sid>,           // the reaper's snapshot, not yet rechecked
    issued: set<Sid>,
    clock: real)                // latest clock reading

  /** keyring: the id the kernel keyring gave, None when it is unavailable or refused.
      readable: whether the keyring still gives the payload back. */
  datatype Step =
    | Create(sid: Sid, csrf: string, username: string, password: string, keyring: Option<KeyId>, key: Key, now: real)
    | Get(sid: Sid, now: real)
    | Credentials(sid: Sid, now: real, readable: bool)
    | Delete(sid: Sid)
    | Snapshot(now: real)
    | Reap(sid: Sid, now: real)

  datatype Answer = Nothing | User(username: string) | Login(username: string, password: string)

  function Initial(ttl: nat): State {
    State(ttl, map[], map[], map[], {}, {}, {}, 0.0)
  }

  predicate Late(ttl: nat, createdAt: real, lastSeen: real, now: real) {
    now - createdAt > ttl as real || now - lastSeen > (ttl / 2) as real
  }

  predicate Expired(ttl: nat, x: Session, now: real) {
    Late(ttl, x.createdAt, x.lastSeen, now)
  }

  lemma LateStaysLate(ttl: nat, createdAt: real, lastSeen: real, now: real, later: real)
    requires Late(ttl, createdAt, lastSeen, now) && now <= later
    ensures Late(ttl, createdAt, lastSeen, later)
  {
  }

  /** Fresh tokens and keyring serials, and a clock that never goes back. */
  predicate Enabled(s: State, step: Step) {
    match step
    case Create(sid, _, _, _, keyring, _, now) =>
      sid !in s.issued && s.clock <= now && (keyring.Some? ==> keyring.value !in s.vault)
    case Get(_, now) => s.clock <= now
    case Credentials(_, now, _) => s.clock <= now
    case Delete(_) => true
    case Snapshot(now) => s.clock <= now
    case Reap(sid, now) => s.clock <= now && sid in s.doomed
  }

  function Id(keyringId: Option<KeyId>): set<KeyId> {
    if keyringId.Some? then {keyringId.value} else {}
  }

  /** _clear_and_delete */
  function ClearAndDelete(s: State, sid: Sid): State
    requires sid in s.sessions
  {
    s.(sessions := s.sessions - {sid}, keys := s.keys - {sid}, revoked := s.revoked + Id(s.sessions[sid].keyringId))
  }

  function Touch(s: State, sid: Sid, now: real): State
    requires sid in s.sessions
  {
    s.(sessions := s.sessions[sid := s.sessions[sid].(lastSeen := now)])
  }

  function Decrypt(c: Cipher, key: Key): Option<string> {
    if c.key == key then Some(c.plain) else None
  }

  function ReadSecret(s: State, id: KeyId, readable: bool): Option<string> {
    if readable && id in s.vault then Some(s.vault[id].payload) else None
  }

  function CreateStep(s: State, sid: Sid, csrf: string, username: string, password: string,
                      keyring: Option<KeyId>, key: Key, now: real): State
  {
    var bare := Session(username, csrf, now, now, None, None);
    var s1 := s.(issued := s.issued + {sid});
    if password == "" then s1.(sessions := s.sessions[sid := bare])
    else if keyring.Some? then
      s1.(sessions := s.sessions[sid := bare.(keyringId := keyring)],
          vault := s.vault[keyring.value := Secret(sid, password)])
    else s1.(sessions := s.sessions[sid := bare.(enc := Some(Cipher(key, password)))], keys := s.keys[sid := key])
  }

  function GetStep(s: State, sid: Sid, now: real): (State, Answer) {
    if sid !in s.sessions then (s, Nothing)
    else if Expired(s.ttl, s.sessions[sid], now) then (ClearAndDelete(s, sid), Nothing)
    else (Touch(s, sid, now), User(s.sessions[sid].username))
  }

  function CredentialsStep(s: State, sid: Sid, now: real, readable: bool): (State, Answer) {
    if sid !in s.sessions then (s, Nothing)
    else if Expired(s.ttl, s.sessions[sid], now) then (ClearAndDelete(s, sid), Nothing)
    else
      var t := Touch(s, sid, now);
      var x := s.sessions[sid];
      if x.keyringId.Some? then
        match ReadSecret(s, x.keyringId.value, readable)
        case Some(payload) => (t, Login(x.username, payload))
        case None => (ClearAndDelete(t, sid), Nothing)
      else if sid !in s.keys || x.enc.None? then (t, Nothing)
      else
        match Decrypt(x.enc.value, s.keys[sid])
        case Some(password) => (t, Login(x.username, password))
        case None => (ClearAndDelete(t, sid), Nothing)
  }

  function ExpiredAt(s: State, now: real): set<Sid> {
    set sid | sid in s.sessions && Expired(s.ttl, s.sessions[sid], now)
  }

  function ReapStep(s: State, sid: Sid, now: real): State {
    var t := s.(doomed := s.doomed - {sid});
    if sid in s.sessions && Expired(s.ttl, s.sessions[sid], now) then ClearAndDelete(t, sid) else t
  }

  function Reading(step: Step, clock: real): real {
    if step.Delete? then clock else step.now
  }

  /** The new state and what the caller is told. */
  function Call(s: State, step: Step): (State, Answer) {
    var r := match step
             case Create(sid, csrf, username, password, keyring, key, now) =>
               (CreateStep(s, sid, csrf, username, password, keyring, key, now), Nothing)
             case Get(sid, now) => GetStep(s, sid, now)
             case Credentials(sid, now, readable) => CredentialsStep(s, sid, now, readable)
             case Delete(sid) => (if sid in s.sessions then ClearAndDelete(s, sid) else s, Nothing)
             case Snapshot(now) => (s.(doomed := ExpiredAt(s, now)), Nothing)
             case Reap(sid, now) => (ReapStep(s, sid, now), Nothing);
    (r.0.(clock := Reading(step, s.clock)), r.1)
  }

  // ---- runs ----

  function After(ttl: nat, run: seq<Step>): State {
    if run == [] then Initial(ttl) else Call(After(ttl, run[..|run| - 1]), run[|run| - 1]).0
  }

  predicate Lawful(ttl: nat, run: seq<Step>) {
    run == [] || (Lawful(ttl, run[..|run| - 1]) && Enabled(After(ttl, run[..|run| - 1]), run[|run| - 1]))
  }

  lemma Extend(ttl: nat, run: seq<Step>, step: Step)
    ensures After(ttl, run + [step]) == Call(After(ttl, run), step).0
    ensures Lawful(ttl, run + [step]) <==> Lawful(ttl, run) && Enabled(After(ttl, run), step)
  {
    assert (run + [step])[..|run|] == run;
  }

  lemma {:induction false} RunInduction(ttl: nat, run: seq<Step>)
    requires Lawful(ttl, run) && run != []
    ensures var before := run[..|run| - 1]; var last := run[|run| - 1];
            Lawful(ttl, before) && Enabled(After(ttl, before), last)
            && After(ttl, run) == Call(After(ttl, before), last).0
  {
  }

  // ---- the life of one session, told from the calls alone ----

  /** No store, no reaper: what the calls about one session id say about it. */
  datatype Life = Life(username: string, csrf: string, password: string, onKeyring: bool,
                       createdAt: real, lastAccess: real)

  function Accessed(ttl: nat, life: Option<Life>, now: real): Option<Life> {
    if life.None? || Late(ttl, life.value.createdAt, life.value.lastAccess, now) then None
    else Some(life.value.(lastAccess := now))
  }

  function Lived(ttl: nat, life: Option<Life>, sid: Sid, step: Step): Option<Life> {
    match step
    case Create(c, csrf, username, password, keyring, _, now) =>
      if c == sid then Some(Life(username, csrf, password, password != "" && keyring.Some?, now, now)) else life
    case Get(c, now) => if c == sid then Accessed(ttl, life, now) else life
    case Credentials(c, now, readable) =>
      if c != sid then life
      else if life.Some? && life.value.onKeyring && !readable then None
      else Accessed(ttl, life, now)
    case Delete(c) => if c == sid then None else life
    case Snapshot(_) => life
    case Reap(_, _) => life
  }

  function LifeOf(ttl: nat, run: seq<Step>, sid: Sid): Option<Life> {
    if run == [] then None else Lived(ttl, LifeOf(ttl, run[..|run| - 1], sid), sid, run[|run| - 1])
  }

  /** The answer the calls alone entitle the caller to. */
  function Due(ttl: nat, run: seq<Step>, step: Step): Answer {
    match step
    case Get(sid, now) =>
      (match Accessed(ttl, LifeOf(ttl, run, sid), now) case None => Nothing case Some(x) => User(x.username))
    case Credentials(sid, now, readable) =>
      (match Accessed(ttl, LifeOf(ttl, run, sid), now)
       case None => Nothing
       case Some(x) =>
         if x.password == "" || (x.onKeyring && !readable) then Nothing else Login(x.username, x.password))
    case _ => Nothing
  }

  // ---- the store's own invariant ----

  predicate SessionGood(s: State, sid: Sid)
    requires sid in s.sessions
  {
    var x := s.sessions[sid];
    sid in s.issued && x.createdAt <= x.lastSeen <= s.clock
    && (x.keyringId.Some? ==> x.enc.None? && x.keyringId.value in s.vault && x.keyringId.value !in s.revoked
                              && s.vault[x.keyringId.value].sid == sid)
    && (sid in s.keys <==> x.enc.Some?)
    && (x.enc.Some? ==> s.keys[sid] == x.enc.value.key)
  }

  /** A stored secret belongs to a live session that holds its id, or its revocation was requested. */
  predicate SecretGood(s: State, id: KeyId)
    requires id in s.vault
  {
    var sid := s.vault[id].sid;
    sid in s.issued && ((sid in s.sessions && s.sessions[sid].keyringId == Some(id)) <==> id !in s.revoked)
  }

  predicate Good(s: State) {
    (forall sid :: sid in s.sessions ==> SessionGood(s, sid))
    && (forall sid :: sid in s.keys ==> sid in s.sessions)
    && (forall id: KeyId :: id in s.vault ==> SecretGood(s, id))
    && (forall id: KeyId :: id in s.revoked ==> id in s.vault)
  }

  lemma CreateKeepsSessions(s: State, sid: Sid, csrf: string, username: string, password: string,
                            keyring: Option<KeyId>, key: Key, now: real)
    requires Good(s) && Enabled(s, Create(sid, csrf, username, password, keyring, key, now))
    ensures var t := CreateStep(s, sid, csrf, username, password, keyring, key, now).(clock := now);
            (forall d :: d in t.sessions ==> SessionGood(t, d)) && forall d :: d in t.keys ==> d in t.sessions
  {
    var t := CreateStep(s, sid, csrf, username, password, keyring, key, now).(clock := now);
    hide SecretGood;
    forall d | d in t.sessions ensures SessionGood(t, d) {
      if d != sid {
        assert SessionGood(s, d);
      }
    }
  }

  lemma CreateKeepsSecrets(s: State, sid: Sid, csrf: string, username: string, password: string,
                           keyring: Option<KeyId>, key: Key, now: real)
    requires Good(s) && Enabled(s, Create(sid, csrf, username, password, keyring, key, now))
    ensures var t := CreateStep(s, sid, csrf, username, password, keyring, key, now).(clock := now);
            (forall id: KeyId :: id in t.vault ==> SecretGood(t, id))
            && forall id: KeyId :: id in t.revoked ==> id in t.vault
  {
    var t := CreateStep(s, sid, csrf, username, password, keyring, key, now).(clock := now);
    hide SessionGood;
    forall id: KeyId | id in t.vault ensures SecretGood(t, id) {
      if id in s.vault {
        assert SecretGood(s, id);
      }
    }
  }

  lemma ClearKeeps(s: State, sid: Sid)
    requires Good(s) && sid in s.sessions
    ensures Good(ClearAndDelete(s, sid))
  {
    var t := ClearAndDelete(s, sid);
    assert SessionGood(s, sid);
    forall d | d in t.sessions ensures SessionGood(t, d) {
      assert SessionGood(s, d);
    }
    forall id: KeyId | id in t.vault ensures SecretGood(t, id) {
      assert SecretGood(s, id);
    }
  }

  lemma ClockKeeps(s: State, now: real, doomed: set<Sid>)
    requires Good(s) && s.clock <= now
    ensures Good(s.(clock := now, doomed := doomed))
  {
    var t := s.(clock := now, doomed := doomed);
    forall d | d in t.sessions ensures SessionGood(t, d) {
      assert SessionGood(s, d);
    }
    forall id: KeyId | id in t.vault ensures SecretGood(t, id) {
      assert SecretGood(s, id);
    }
  }

  lemma TouchKeeps(s: State, sid: Sid, now: real)
    requires Good(s) && sid in s.sessions && s.clock <= now
    ensures Good(Touch(s, sid, now).(clock := now))
  {
    var t := Touch(s, sid, now).(clock := now);
    forall d | d in t.sessions ensures SessionGood(t, d) {
      assert SessionGood(s, d);
    }
    forall id: KeyId | id in t.vault ensures SecretGood(t, id) {
      assert SecretGood(s, id);
    }
  }

  lemma TouchThenClear(s: State, sid: Sid, now: real)
    requires sid in s.sessions
    ensures ClearAndDelete(Touch(s, sid, now), sid) == ClearAndDelete(s, sid)
  {
    assert s.sessions[sid := s.sessions[sid].(lastSeen := now)] - {sid} == s.sessions - {sid};
  }

  /** An access changes nothing, the time of the last access, or removes the session. */
  lemma AccessDoes(s: State, step: Step)
    requires step.Get? || step.Credentials?
    ensures var t := Call(s, step).0;
            t == s.(clock := step.now)
            || (step.sid in s.sessions && (t == Touch(s, step.sid, step.now).(clock := step.now)
                                           || t == ClearAndDelete(s, step.sid).(clock := step.now)))
  {
    if step.sid in s.sessions {
      TouchThenClear(s, step.sid, step.now);
      hide ClearAndDelete, Touch, Expired, Decrypt, ReadSecret;
    }
  }

  lemma CallKeeps(s: State, step: Step)
    requires Good(s) && Enabled(s, step)
    ensures Good(Call(s, step).0)
  {
    if step.Create? {
      CreateKeepsSessions(s, step.sid, step.csrf, step.username, step.password, step.keyring, step.key, step.now);
      CreateKeepsSecrets(s, step.sid, step.csrf, step.username, step.password, step.keyring, step.key, step.now);
      hide SessionGood, SecretGood, CreateStep;
    } else if step.Get? || step.Credentials? {
      AccessDoes(s, step);
      ClockKeeps(s, step.now, s.doomed);
      if step.sid in s.sessions {
        TouchKeeps(s, step.sid, step.now);
        ClearKeeps(s, step.sid);
        ClockKeeps(ClearAndDelete(s, step.sid), step.now, s.doomed);
      }
      hide Good, Call, Touch;
    } else {
      RemovalKeeps(s, step);
    }
  }

  lemma RemovalKeeps(s: State, step: Step)
    requires Good(s) && Enabled(s, step) && (step.Delete? || step.Snapshot? || step.Reap?)
    ensures Good(Call(s, step).0)
  {
    hide Good;
    match step {
      case Delete(sid) =>
        if sid in s.sessions {
          ClearKeeps(s, sid);
        }
      case Snapshot(now) => ClockKeeps(s, now, ExpiredAt(s, now));
      case Reap(sid, now) =>
        var t := s.(doomed := s.doomed - {sid});
        ClockKeeps(s, s.clock, t.doomed);
        ClockKeeps(s, now, t.doomed);
        if sid in t.sessions {
          ClearKeeps(t, sid);
          ClockKeeps(ClearAndDelete(t, sid), now, t.doomed);
        }
    }
  }

  /** In every run the Fernet keys belong exactly to the live sessions that hold ciphertext, and the
      keyring ids not revoked are exactly those of live sessions. */
  lemma {:induction false} RunKeepsGood(ttl: nat, run: seq<Step>)
    requires Lawful(ttl, run)
    ensures Good(After(ttl, run)) && After(ttl, run).ttl == ttl
  {
    if run != [] {
      RunInduction(ttl, run);
      RunKeepsGood(ttl, run[..|run| - 1]);
      CallKeeps(After(ttl, run[..|run| - 1]), run[|run| - 1]);
      CallTtl(After(ttl, run[..|run| - 1]), run[|run| - 1]);
    }
  }

  lemma CallTtl(s: State, step: Step)
    ensures Call(s, step).0.ttl == s.ttl
  {
  }

  /** A Fernet key is kept exactly for the live sessions with ciphertext, and opens it. */
  lemma KeysBelongToCiphertext(ttl: nat, run: seq<Step>, sid: Sid)
    requires Lawful(ttl, run)
    ensures var s := After(ttl, run);
            (sid in s.keys <==> sid in s.sessions && s.sessions[sid].enc.Some?)
            && (sid in s.keys ==> Decrypt(s.sessions[sid].enc.value, s.keys[sid]).Some?)
  {
    RunKeepsGood(ttl, run);
    var s := After(ttl, run);
    if sid in s.sessions {
      assert SessionGood(s, sid);
    }
  }

  /** The keyring ids given out and not revoked are exactly those of the sessions still in the store. */
  lemma RemovedIsRevoked(ttl: nat, run: seq<Step>, id: KeyId)
    requires Lawful(ttl, run) && id in After(ttl, run).vault
    ensures var s := After(ttl, run);
            id in s.revoked <==> !(exists sid :: sid in s.sessions && s.sessions[sid].keyringId == Some(id))
  {
    RunKeepsGood(ttl, run);
    var s := After(ttl, run);
    assert SecretGood(s, id);
    forall sid | sid in s.sessions ensures SessionGood(s, sid) {
    }
  }

  // ---- the store agrees with the calls ----

  /** A stored session is the life its calls tell; a life without a session has run out. */
  predicate Agrees(s: State, sid: Sid, life: Option<Life>) {
    if sid in s.sessions then
      var x := s.sessions[sid];
      life.Some? && life.value.username == x.username && life.value.csrf == x.csrf
      && life.value.createdAt == x.createdAt && life.value.lastAccess == x.lastSeen
      && life.value.onKeyring == x.keyringId.Some?
      && (x.keyringId.Some? ==>
            x.keyringId.value in s.vault && s.vault[x.keyringId.value].payload == life.value.password
            && life.value.password != "")
      && (x.keyringId.None? ==> (x.enc.Some? <==> life.value.password != ""))
      && (x.enc.Some? ==> x.enc.value.plain == life.value.password)
    else
      life.Some? ==> sid in s.issued && Late(s.ttl, life.value.createdAt, life.value.lastAccess, s.clock)
  }

  lemma CreateAgrees(s: State, step: Step, sid: Sid, life: Option<Life>)
    requires Good(s) && Enabled(s, step) && Agrees(s, sid, life) && step.Create?
    ensures Agrees(Call(s, step).0, sid, Lived(s.ttl, life, sid, step))
  {
    if sid in s.sessions {
      assert SessionGood(s, sid);
    }
  }

  lemma GetAgrees(s: State, step: Step, sid: Sid, life: Option<Life>)
    requires Enabled(s, step) && Agrees(s, sid, life) && step.Get?
    requires sid in s.sessions ==> SessionGood(s, sid)
    ensures Agrees(Call(s, step).0, sid, Lived(s.ttl, life, sid, step))
  {
    if life.Some? && Late(s.ttl, life.value.createdAt, life.value.lastAccess, s.clock) {
      LateStaysLate(s.ttl, life.value.createdAt, life.value.lastAccess, s.clock, step.now);
    }
    hide Late, SessionGood;
  }

  lemma CredentialsAgrees(s: State, step: Step, sid: Sid, life: Option<Life>)
    requires Enabled(s, step) && Agrees(s, sid, life) && step.Credentials?
    requires sid in s.sessions ==> SessionGood(s, sid)
    ensures Agrees(Call(s, step).0, sid, Lived(s.ttl, life, sid, step))
  {
    if life.Some? && Late(s.ttl, life.value.createdAt, life.value.lastAccess, s.clock) {
      LateStaysLate(s.ttl, life.value.createdAt, life.value.lastAccess, s.clock, step.now);
    }
    if step.sid != sid {
      OthersUntouched(s, step, sid);
      hide CredentialsStep, Late, SessionGood, Enabled;
    } else if sid !in s.sessions {
      hide Late, SessionGood;
    } else {
      OwnCredentials(s, step.now, step.readable, sid, life);
      hide CredentialsStep, Late, SessionGood;
    }
  }

  lemma OthersUntouched(s: State, step: Step, sid: Sid)
    requires step.Credentials? && step.sid != sid
    ensures var t := CredentialsStep(s, step.sid, step.now, step.readable).0;
            (sid in t.sessions <==> sid in s.sessions) && (sid in s.sessions ==> t.sessions[sid] == s.sessions[sid])
            && t.vault == s.vault && t.issued == s.issued && t.ttl == s.ttl
  {
    hide Late, Expired;
  }

  lemma OwnCredentials(s: State, now: real, readable: bool, sid: Sid, life: Option<Life>)
    requires sid in s.sessions && SessionGood(s, sid) && Agrees(s, sid, life)
    ensures var t := CredentialsStep(s, sid, now, readable).0;
            Agrees(t.(clock := now), sid, Lived(s.ttl, life, sid, Credentials(sid, now, readable)))
  {
    hide Late;
  }

  lemma RemovalAgrees(s: State, step: Step, sid: Sid, life: Option<Life>)
    requires Enabled(s, step) && Agrees(s, sid, life) && (sid in s.sessions ==> SessionGood(s, sid))
    requires step.Delete? || step.Snapshot? || step.Reap?
    ensures Agrees(Call(s, step).0, sid, Lived(s.ttl, life, sid, step))
  {
  }

  /** One call keeps a session and its life in step. */
  lemma CallAgrees(s: State, step: Step, sid: Sid, life: Option<Life>)
    requires Good(s) && Enabled(s, step) && Agrees(s, sid, life)
    ensures Agrees(Call(s, step).0, sid, Lived(s.ttl, life, sid, step))
  {
    hide Enabled, Agrees, Call, Lived, SessionGood;
    if step.Create? {
      CreateAgrees(s, step, sid, life);
    } else if step.Get? {
      GetAgrees(s, step, sid, life);
    } else if step.Credentials? {
      CredentialsAgrees(s, step, sid, life);
    } else {
      RemovalAgrees(s, step, sid, life);
    }
  }

  lemma {:induction false} RunAgrees(ttl: nat, run: seq<Step>, sid: Sid)
    requires Lawful(ttl, run)
    ensures Agrees(After(ttl, run), sid, LifeOf(ttl, run, sid))
  {
    if run != [] {
      var before := run[..|run| - 1];
      RunInduction(ttl, run);
      RunAgrees(ttl, before, sid);
      RunKeepsGood(ttl, before);
      CallAgrees(After(ttl, before), run[|run| - 1], sid, LifeOf(ttl, before, sid));
    }
  }

  /** Every call in every run answers exactly what the earlier calls about that session entitle it to;
      the reaper, the two credential stores and all other sessions leave no trace. */
  lemma AnswersAreDue(ttl: nat, run: seq<Step>, step: Step)
    requires Lawful(ttl, run + [step])
    ensures Call(After(ttl, run), step).1 == Due(ttl, run, step)
  {
    Extend(ttl, run, step);
    RunKeepsGood(ttl, run);
    var s := After(ttl, run);
    if step.Get? || step.Credentials? {
      RunAgrees(ttl, run, step.sid);
      if step.sid in s.sessions {
        assert SessionGood(s, step.sid);
      }
      hide After, Lawful, LifeOf, Good;
      if step.Get? {
        GetIsDue(s, step, LifeOf(ttl, run, step.sid));
      } else {
        CredentialsAreDue(s, step, LifeOf(ttl, run, step.sid));
      }
      hide Call, Agrees, SessionGood, Enabled;
    }
  }

  lemma GetIsDue(s: State, step: Step, life: Option<Life>)
    requires step.Get? && Enabled(s, step) && Agrees(s, step.sid, life)
    ensures Call(s, step).1
         == match Accessed(s.ttl, life, step.now) case None => Nothing case Some(x) => User(x.username)
  {
  }

  lemma CredentialsAreDue(s: State, step: Step, life: Option<Life>)
    requires step.Credentials? && Enabled(s, step) && Agrees(s, step.sid, life)
    requires step.sid in s.sessions ==> SessionGood(s, step.sid)
    ensures Call(s, step).1
         == match Accessed(s.ttl, life, step.now)
            case None => Nothing
            case Some(x) =>
              if x.password == "" || (x.onKeyring && !step.readable) then Nothing else Login(x.username, x.password)
  {
    if life.Some? && Late(s.ttl, life.value.createdAt, life.value.lastAccess, s.clock) {
      LateStaysLate(s.ttl, life.value.createdAt, life.value.lastAccess, s.clock, step.now);
    }
    hide Late;
  }

  predicate Accesses(step: Step, sid: Sid) {
    (step.Create? || step.Get? || step.Credentials?) && step.sid == sid
  }

  /** A life names the call that created the session, with that user and password, and the latest call
      that accessed it, and no delete has come since. */
  lemma {:induction false} LifeMeans(ttl: nat, run: seq<Step>, sid: Sid) returns (i: nat, j: nat)
    requires LifeOf(ttl, run, sid).Some?
    ensures var x := LifeOf(ttl, run, sid).value;
            i <= j < |run|
            && run[i].Create? && run[i].sid == sid && run[i].username == x.username && run[i].password == x.password
            && run[i].now == x.createdAt
            && Accesses(run[j], sid) && run[j].now == x.lastAccess
            && (forall k :: j < k < |run| ==> !Accesses(run[k], sid))
            && (forall k :: i < k < |run| ==> run[k] != Delete(sid))
  {
    var before, last := run[..|run| - 1], run[|run| - 1];
    if last.Create? && last.sid == sid {
      i, j := |run| - 1, |run| - 1;
    } else {
      assert LifeOf(ttl, before, sid).Some?;
      i, j := LifeMeans(ttl, before, sid);
      if Accesses(last, sid) {
        j := |run| - 1;
      }
    }
  }

  /** A session that is returned was created, as that user, at most TTL ago, and accessed before, at
      most TTL // 2 ago; a password that is returned is the one it was created with. */
  lemma ReturnedInTime(ttl: nat, run: seq<Step>, step: Step) returns (i: nat, j: nat)
    requires Lawful(ttl, run + [step]) && Call(After(ttl, run), step).1 != Nothing
    ensures step.Get? || step.Credentials?
    ensures i <= j < |run| && run[i].Create? && run[i].sid == step.sid && Accesses(run[j], step.sid)
    ensures Call(After(ttl, run), step).1
         == if step.Get? then User(run[i].username) else Login(run[i].username, run[i].password)
    ensures step.now - run[i].now <= ttl as real && step.now - run[j].now <= (ttl / 2) as real
    ensures forall k :: j < k < |run| ==> !Accesses(run[k], step.sid)
    ensures forall k :: i < k < |run| ==> run[k] != Delete(step.sid)
  {
    AnswersAreDue(ttl, run, step);
    hide After, Lawful, Call, LifeOf, Enabled;
    i, j := LifeMeans(ttl, run, step.sid);
  }

  // ---- expiry is final ----

  /** The session cannot be used at or after this moment. */
  predicate Over(ttl: nat, life: Option<Life>, now: real) {
    life.None? || Late(ttl, life.value.createdAt, life.value.lastAccess, now)
  }

  lemma StepStaysOver(s: State, step: Step, sid: Sid, life: Option<Life>, now: real)
    requires Enabled(s, step) && sid in s.issued && Over(s.ttl, life, now) && now <= s.clock
    ensures Over(s.ttl, Lived(s.ttl, life, sid, step), now)
    ensures sid in Call(s, step).0.issued && now <= Call(s, step).0.clock
  {
  }

  lemma {:induction false} OverStaysOver(ttl: nat, run: seq<Step>, more: seq<Step>, sid: Sid, now: real)
    requires Lawful(ttl, run + more) && sid in After(ttl, run).issued
    requires Over(ttl, LifeOf(ttl, run, sid), now) && now <= After(ttl, run).clock
    ensures Over(ttl, LifeOf(ttl, run + more, sid), now)
    ensures sid in After(ttl, run + more).issued && now <= After(ttl, run + more).clock
  {
    if more == [] {
      assert run + more == run;
    } else {
      var shorter, last := more[..|more| - 1], more[|more| - 1];
      assert run + more == (run + shorter) + [last];
      assert (run + more)[..|run + more| - 1] == run + shorter;
      Extend(ttl, run + shorter, last);
      OverStaysOver(ttl, run, shorter, sid, now);
      RunKeepsGood(ttl, run + shorter);
      assert LifeOf(ttl, run + more, sid) == Lived(ttl, LifeOf(ttl, run + shorter, sid), sid, last);
      hide *;
      StepStaysOver(After(ttl, run + shorter), last, sid, LifeOf(ttl, run + shorter, sid), now);
    }
  }

  lemma IssuedKept(s: State, step: Step)
    ensures s.issued <= Call(s, step).0.issued
  {
  }

  /** The password a session was created with. */
  function PasswordOf(run: seq<Step>, sid: Sid): Option<string> {
    if run == [] then None
    else
      var last := run[|run| - 1];
      if last.Create? && last.sid == sid then Some(last.password) else PasswordOf(run[..|run| - 1], sid)
  }

  lemma {:induction false} LifeHasPassword(ttl: nat, run: seq<Step>, sid: Sid)
    requires LifeOf(ttl, run, sid).Some?
    ensures PasswordOf(run, sid) == Some(LifeOf(ttl, run, sid).value.password)
  {
    var last := run[|run| - 1];
    if !(last.Create? && last.sid == sid) {
      LifeHasPassword(ttl, run[..|run| - 1], sid);
    }
  }

  /** A refusal: an access that returned nothing, where for credentials there was a password to return. */
  predicate Refused(ttl: nat, run: seq<Step>, step: Step) {
    Call(After(ttl, run), step).1 == Nothing
    && (step.Get? || (step.Credentials? && PasswordOf(run, step.sid).Some? && PasswordOf(run, step.sid) != Some("")))
  }

  lemma RefusalEnds(ttl: nat, run: seq<Step>, first: Step)
    requires Lawful(ttl, run + [first]) && Refused(ttl, run, first)
    ensures LifeOf(ttl, run + [first], first.sid).None?
  {
    AnswersAreDue(ttl, run, first);
    assert (run + [first])[..|run|] == run;
    var life := LifeOf(ttl, run, first.sid);
    if life.Some? { LifeHasPassword(ttl, run, first.sid); }
    assert LifeOf(ttl, run + [first], first.sid) == Lived(ttl, life, first.sid, first);
    hide After, Lawful, Call, LifeOf, PasswordOf;
  }

  /** Once an access to a session, or to its credentials, has been refused, whoever refused it and why, no
      later call returns that session again. */
  lemma RefusedForever(ttl: nat, run: seq<Step>, first: Step, more: seq<Step>, later: Step)
    requires Lawful(ttl, run + [first] + more + [later])
    requires Refused(ttl, run, first) && first.sid in After(ttl, run).issued
    requires (later.Get? || later.Credentials?) && later.sid == first.sid
    ensures Call(After(ttl, run + [first] + more), later).1 == Nothing
  {
    var sid := first.sid;
    Extend(ttl, run + [first] + more, later);
    LawfulPrefix(ttl, run + [first], more);
    Extend(ttl, run, first);
    AnswersAreDue(ttl, run + [first] + more, later);
    RefusalEnds(ttl, run, first);
    IssuedKept(After(ttl, run), first);
    assert After(ttl, run + [first]).clock == first.now;
    hide After, Lawful, Call, Refused;
    OverStaysOver(ttl, run + [first], more, sid, first.now);
  }

  lemma {:induction false} LawfulPrefix(ttl: nat, run: seq<Step>, more: seq<Step>)
    requires Lawful(ttl, run + more)
    ensures Lawful(ttl, run)
  {
    if more == [] {
      assert run + more == run;
    } else {
      assert (run + more)[..|run + more| - 1] == run + more[..|more| - 1];
      LawfulPrefix(ttl, run, more[..|more| - 1]);
    }
  }

  /** A session left alone past either limit is never returned again, whether or not the reaper came. */
  lemma ExpiredForever(ttl: nat, run: seq<Step>, more: seq<Step>, sid: Sid, later: Step)
    requires Lawful(ttl, run + more + [later])
    requires sid in After(ttl, run).issued && Over(ttl, LifeOf(ttl, run, sid), After(ttl, run).clock)
    requires (later.Get? || later.Credentials?) && later.sid == sid
    ensures Call(After(ttl, run + more), later).1 == Nothing
  {
    Extend(ttl, run + more, later);
    AnswersAreDue(ttl, run + more, later);
    var now := After(ttl, run).clock;
    OverStaysOver(ttl, run, more, sid, now);
    hide After, Lawful, Call;
  }

  // ---- the reaper ----

  /** The step is a call about this session, not the reaper's work or a call about another one. */
  predicate Names(step: Step, sid: Sid) {
    (step.Create? || step.Get? || step.Credentials? || step.Delete?) && step.sid == sid
  }

  lemma ReapSparesGood(s: State, sid: Sid, now: real, d: Sid)
    requires d in s.sessions && !Expired(s.ttl, s.sessions[d], now)
    ensures d in ReapStep(s, sid, now).sessions && ReapStep(s, sid, now).sessions[d] == s.sessions[d]
  {
  }

  lemma OtherCallSpares(s: State, step: Step, sid: Sid)
    requires Enabled(s, step) && !Names(step, sid) && sid in s.sessions
    requires !Expired(s.ttl, s.sessions[sid], Call(s, step).0.clock)
    ensures sid in Call(s, step).0.sessions && Call(s, step).0.sessions[sid] == s.sessions[sid]
  {
    if step.Reap? { ReapSparesGood(s, step.sid, step.now, sid); }
    hide Expired, ReapStep;
  }

  lemma ClockGrows(s: State, step: Step)
    requires Enabled(s, step)
    ensures s.clock <= Call(s, step).0.clock
  {
  }

  /** A session that is still good at the end of any run of reaper steps and calls about other sessions, in any
      order, is in the store at the end, untouched. */
  lemma {:induction false} UnexpiredSurvives(ttl: nat, run: seq<Step>, more: seq<Step>, sid: Sid)
    requires Lawful(ttl, run + more) && sid in After(ttl, run).sessions
    requires forall k :: 0 <= k < |more| ==> !Names(more[k], sid)
    requires !Expired(ttl, After(ttl, run).sessions[sid], After(ttl, run + more).clock)
    ensures sid in After(ttl, run + more).sessions
            && After(ttl, run + more).sessions[sid] == After(ttl, run).sessions[sid]
  {
    if more == [] {
      assert run + more == run;
    } else {
      var shorter, last := more[..|more| - 1], more[|more| - 1];
      var x := After(ttl, run).sessions[sid];
      assert run + more == (run + shorter) + [last];
      Extend(ttl, run + shorter, last);
      var s := After(ttl, run + shorter);
      RunKeepsGood(ttl, run + shorter);
      ClockGrows(s, last);
      hide After, Lawful, Call, Good, Enabled, Names;
      if Expired(ttl, x, s.clock) {
        LateStaysLate(ttl, x.createdAt, x.lastSeen, s.clock, After(ttl, run + more).clock);
        assert false;
      }
      UnexpiredSurvives(ttl, run, shorter, sid);
      OtherCallSpares(s, last, sid);
    }
  }

  function IdsOf(sessions: map<Sid, Session>, sids: set<Sid>): set<KeyId> {
    set sid | sid in sids && sid in sessions && sessions[sid].keyringId.Some? :: sessions[sid].keyringId.value
  }

  lemma IdsOfOneMore(sessions: map<Sid, Session>, sids: set<Sid>, sid: Sid)
    requires sid in sessions
    ensures IdsOf(sessions, sids + {sid}) == IdsOf(sessions, sids) + Id(sessions[sid].keyringId)
  {
    assert forall id: KeyId :: id in IdsOf(sessions, sids + {sid}) ==>
             id in IdsOf(sessions, sids) + Id(sessions[sid].keyringId);
    if sessions[sid].keyringId.Some? {
      assert sid in sids + {sid};
    }
  }

  /** The store without the sessions named, their keys dropped and their keyring ids revoked. */
  function Without(s: State, gone: set<Sid>): State {
    s.(sessions := s.sessions - gone, keys := s.keys - gone, revoked := s.revoked + IdsOf(s.sessions, gone))
  }

  lemma WithoutOneMore(s: State, gone: set<Sid>, sid: Sid)
    requires sid in s.sessions && sid !in gone
    ensures Without(s, gone + {sid}) == ClearAndDelete(Without(s, gone), sid)
  {
    IdsOfOneMore(s.sessions, gone, sid);
    assert s.sessions - (gone + {sid}) == (s.sessions - gone) - {sid};
    assert s.keys - (gone + {sid}) == (s.keys - gone) - {sid};
  }

  lemma SweepStep(s: State, t0: real, gone: set<Sid>, sid: Sid, t: State, now: real)
    requires sid in ExpiredAt(s, t0) && sid !in gone && t0 <= now
    requires t == Without(s, gone).(clock := t.clock, doomed := t.doomed)
    ensures sid in t.sessions && Expired(t.ttl, t.sessions[sid], now)
    ensures Call(t, Reap(sid, now)).0 == Without(s, gone + {sid}).(clock := now, doomed := t.doomed - {sid})
  {
    WithoutOneMore(s, gone, sid);
    LateStaysLate(s.ttl, s.sessions[sid].createdAt, s.sessions[sid].lastSeen, t0, now);
  }

  lemma NothingGone(s: State)
    ensures Without(s, {}) == s
  {
    assert s.sessions - {} == s.sessions && s.keys - {} == s.keys;
  }

  lemma SnapshotChanges(s: State, now: real)
    ensures Call(s, Snapshot(now)).0 == s.(clock := now, doomed := ExpiredAt(s, now))
  {
  }

  /** What a sweep leaves, in numbers. */
  lemma SweptIff(s: State, now: real)
    ensures forall d :: d in Without(s, ExpiredAt(s, now)).sessions
              <==> d in s.sessions && now - s.sessions[d].createdAt <= s.ttl as real
                   && now - s.sessions[d].lastSeen <= (s.ttl / 2) as real
  {
  }

  /** The sids a sweep has dealt with and those it still has to. */
  ghost predicate Parts(whole: set<Sid>, done: set<Sid>, todo: set<Sid>, k: nat) {
    done + todo == whole && done !! todo && k == |done|
  }

  lemma StartParts(whole: set<Sid>)
    ensures Parts(whole, {}, whole, 0)
  {
  }

  lemma MoveOne(whole: set<Sid>, done: set<Sid>, todo: set<Sid>, k: nat, sid: Sid)
    requires Parts(whole, done, todo, k) && sid in todo
    ensures Parts(whole, done + {sid}, todo - {sid}, k + 1) && k < |whole| && sid in whole && sid !in done
  {
    assert (done + {sid}) + (todo - {sid}) == whole;
    assert |whole| == |done| + |todo|;
  }

  lemma AllMoved(whole: set<Sid>, done: set<Sid>, k: nat)
    requires Parts(whole, done, {}, k)
    ensures done == whole && k == |whole|
  {
  }

  // ---- the program's store ----

  class SessionStore {
    const ttl: nat
    var sessions: map<Sid, Session>
    var credKeys: map<Sid, Key>
    ghost var vault: map<KeyId, Secret>
    ghost var revoked: set<KeyId>
    ghost var doomed: set<Sid>
    ghost var issued: set<Sid>
    ghost var clock: real

    constructor (ttl: nat)
      ensures View() == Initial(ttl)
    {
      this.ttl := ttl;
      sessions, credKeys, vault, revoked, doomed, issued, clock := map[], map[], map[], {}, {}, {}, 0.0;
    }

    ghost function View(): State
      reads this
    {
      State(ttl, sessions, credKeys, vault, revoked, doomed, issued, clock)
    }

    method ClearCredentials(sid: Sid, x: Session)
      modifies `credKeys, `revoked
      ensures credKeys == old(credKeys) - {sid} && revoked == old(revoked) + Id(x.keyringId)
    {
      revoked := revoked + Id(x.keyringId);
      credKeys := credKeys - {sid};
    }

    method ClearAndDeleteSession(sid: Sid)
      requires sid in sessions
      modifies `sessions, `credKeys, `revoked
      ensures View() == ClearAndDelete(old(View()), sid)
    {
      ClearCredentials(sid, sessions[sid]);
      sessions := sessions - {sid};
    }

    /** create_session; keyring is what the kernel keyring answers, key a fresh Fernet key. */
    method CreateSession(sid: Sid, csrf: string, username: string, password: string,
                         keyring: Option<KeyId>, key: Key, now: real)
      requires Enabled(View(), Create(sid, csrf, username, password, keyring, key, now))
      modifies this
      ensures View() == Call(old(View()), Create(sid, csrf, username, password, keyring, key, now)).0
    {
      clock, issued := now, issued + {sid};
      var x := Session(username, csrf, now, now, None, None);
      if password != "" {
        var stored := false;
        if keyring.Some? {
          vault := vault[keyring.value := Secret(sid, password)];
          x := x.(keyringId := keyring);
          stored := true;
        }
        if !stored {
          credKeys := credKeys[sid := key];
          x := x.(enc := Some(Cipher(key, password)));
        }
      }
      sessions := sessions[sid := x];
    }

    method GetSession(sid: Sid, now: real) returns (answer: Answer)
      requires Enabled(View(), Get(sid, now))
      modifies this
      ensures (View(), answer) == Call(old(View()), Get(sid, now))
    {
      clock := now;
      if sid !in sessions {
        return Nothing;
      }
      if Expired(ttl, sessions[sid], now) {
        ClearAndDeleteSession(sid);
        return Nothing;
      }
      sessions := sessions[sid := sessions[sid].(lastSeen := now)];
      answer := User(sessions[sid].username);
    }

    /** get_session_credentials; payload is what the kernel keyring gives back for the session's id. */
    method GetSessionCredentials(sid: Sid, now: real, readable: bool, payload: Option<string>) returns (answer: Answer)
      requires Enabled(View(), Credentials(sid, now, readable))
      requires sid in sessions && sessions[sid].keyringId.Some?
               ==> payload == ReadSecret(View(), sessions[sid].keyringId.value, readable)
      modifies this
      ensures (View(), answer) == Call(old(View()), Credentials(sid, now, readable))
    {
      clock := now;
      if sid !in sessions {
        return Nothing;
      }
      if Expired(ttl, sessions[sid], now) {
        ClearAndDeleteSession(sid);
        return Nothing;
      }
      sessions := sessions[sid := sessions[sid].(lastSeen := now)];
      var x := sessions[sid];
      if x.keyringId.Some? {
        if payload.Some? {
          return Login(x.username, payload.value);
        }
        ClearAndDeleteSession(sid);
        return Nothing;
      }
      if sid !in credKeys || x.enc.None? {
        return Nothing;
      }
      var password := Decrypt(x.enc.value, credKeys[sid]);
      if password.None? {
        ClearAndDeleteSession(sid);
        return Nothing;
      }
      answer := Login(x.username, password.value);
    }

    method DeleteSession(sid: Sid)
      modifies this
      ensures View() == Call(old(View()), Delete(sid)).0
    {
      if sid in sessions {
        var x := sessions[sid];
        sessions := sessions - {sid};
        ClearCredentials(sid, x);
      }
    }

    method TakeSnapshot(now: real) returns (expired: set<Sid>)
      modifies `doomed, `clock
      ensures View() == Call(old(View()), Snapshot(now)).0 && expired == View().doomed == ExpiredAt(old(View()), now)
    {
      expired := set sid | sid in sessions && Expired(ttl, sessions[sid], now);
      clock, doomed := now, expired;
    }

    /** The reaper's second look at one session of its snapshot. */
    method Recheck(sid: Sid, now: real) returns (removed: bool)
      modifies `sessions, `credKeys, `revoked, `doomed, `clock
      ensures removed <==> sid in old(View()).sessions && Expired(old(View()).ttl, old(View()).sessions[sid], now)
      ensures View() == Call(old(View()), Reap(sid, now)).0
    {
      clock, doomed := now, doomed - {sid};
      removed := sid in sessions && Expired(ttl, sessions[sid], now);
      if removed {
        ClearAndDeleteSession(sid);
      }
    }

    /** One uninterrupted sweep: ticks[0] is the reading for the snapshot, ticks[k] for the k-th recheck.
        Exactly the sessions expired at the snapshot go. */
    method ReaperSweep(ticks: seq<real>) returns (cleaned: nat)
      requires ticks != [] && clock <= ticks[0] && forall k :: 0 <= k < |ticks| ==> ticks[0] <= ticks[k]
      requires |ExpiredAt(View(), ticks[0])| < |ticks|
      modifies `sessions, `credKeys, `revoked, `doomed, `clock
      ensures cleaned == |ExpiredAt(old(View()), ticks[0])|
      ensures View() == Without(old(View()), ExpiredAt(old(View()), ticks[0])).(clock := ticks[cleaned], doomed := {})
      ensures forall d ::
                d in sessions
                <==> d in old(sessions) && ticks[0] - old(sessions)[d].createdAt <= ttl as real
                     && ticks[0] - old(sessions)[d].lastSeen <= (ttl / 2) as real
    {
      ghost var before, gone := View(), {};
      NothingGone(before);
      SnapshotChanges(before, ticks[0]);
      hide *;
      var expired := TakeSnapshot(ticks[0]);
      ghost var snapshot := expired;
      StartParts(snapshot);
      cleaned := 0;
      while expired != {}
        invariant Parts(snapshot, gone, expired, cleaned) && cleaned < |ticks|
        invariant View() == Without(before, gone).(clock := ticks[cleaned], doomed := expired)
        decreases |expired|
      {
        var sid :| sid in expired;
        MoveOne(snapshot, gone, expired, cleaned, sid);
        SweepStep(before, ticks[0], gone, sid, View(), ticks[cleaned + 1]);
        expired, gone := expired - {sid}, gone + {sid};
        var removed := Recheck(sid, ticks[cleaned + 1]);
        if removed {
          cleaned := cleaned + 1;
        }
      }
      AllMoved(snapshot, gone, cleaned);
      SweptIff(before, ticks[0]);
    }
  }
}
