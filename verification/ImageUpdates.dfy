/** Image-update notifications (agent_api.py): reports from the agents of many compartments share one
    bounded set of keys already notified, which is emptied when it is full. */
module ImageUpdates {
  import opened Sets
  import opened Text

  datatype Update = Update(unit: string, image: string, policy: string)

  datatype Hook = Hook(compartment: string, eventType: string, enabled: bool, container: string, url: string)

  datatype Report = Report(cid: string, updates: seq<Update>, hooks: seq<Hook>)

  /** One webhook call. */
  datatype Delivery = Delivery(url: string, cid: string, container: string, image: string, policy: string)

  const SUFFIX := ".service"

  /** unit.removesuffix(".service") */
  function Container(unitName: string): string {
    if |SUFFIX| <= |unitName| && unitName[|unitName| - |SUFFIX|..] == SUFFIX then unitName[..|unitName| - |SUFFIX|]
    else unitName
  }

  function Key(cid: string, u: Update): string {
    cid + "/" + Container(u.unit) + "/" + u.image
  }

  predicate Alerts(h: Hook, cid: string) {
    h.compartment == cid && h.eventType == "on_image_update" && h.enabled
  }

  function AlertHooks(hooks: seq<Hook>, cid: string): seq<Hook> {
    if hooks == [] then []
    else
      var h := hooks[|hooks| - 1];
      AlertHooks(hooks[..|hooks| - 1], cid) + if Alerts(h, cid) then [h] else []
  }

  /** A report that is empty or that nobody listens to changes nothing. */
  predicate Processed(r: Report) {
    r.updates != [] && AlertHooks(r.hooks, r.cid) != []
  }

  // ---- what a key tells apart ----

  /** v's container continues u's by a path that u's image starts with. */
  ghost predicate Shifted(u: Update, v: Update) {
    exists x :: Container(v.unit) == Container(u.unit) + "/" + x && u.image == x + "/" + v.image
  }

  lemma ShiftedKeys(cid: string, u: Update, v: Update)
    requires Shifted(u, v)
    ensures Key(cid, u) == Key(cid, v)
  {
    hide Container;
    var x :| Container(v.unit) == Container(u.unit) + "/" + x && u.image == x + "/" + v.image;
    assert Key(cid, u) == cid + "/" + Container(u.unit) + "/" + x + "/" + v.image;
    assert Key(cid, v) == cid + "/" + Container(u.unit) + "/" + x + "/" + v.image;
  }

  /** Two ways to cut a text at a slash differ by what stands between the cuts. */
  lemma TwoCuts(a: string, i: string, b: string, j: string)
    requires a + "/" + i == b + "/" + j && |a| < |b|
    ensures var x := b[|a| + 1..]; b == a + "/" + x && i == x + "/" + j
  {
    var t := a + "/" + i;
    var n, m := |a| + 1, |b|;
    assert t[..n] == a + "/" && t[n..] == i;
    assert t[..m] == b && t[m..] == "/" + j;
    assert b == t[..n] + t[n..m] && t[n..] == t[n..m] + t[m..];
  }

  lemma SameKeyCuts(cid: string, u: Update, v: Update)
    requires Key(cid, u) == Key(cid, v)
    ensures Container(u.unit) + "/" + u.image == Container(v.unit) + "/" + v.image
  {
    hide Container;
    var n := |cid| + 1;
    assert Key(cid, u)[n..] == Container(u.unit) + "/" + u.image;
    assert Key(cid, v)[n..] == Container(v.unit) + "/" + v.image;
  }

  /** Two updates share a key exactly when they name the same container and image, or part of one's image path
      stands at the end of the other's container name. */
  lemma SameKeyIff(cid: string, u: Update, v: Update)
    ensures Key(cid, u) == Key(cid, v)
       <==> (Container(u.unit) == Container(v.unit) && u.image == v.image) || Shifted(u, v) || Shifted(v, u)
  {
    var a, b := Container(u.unit), Container(v.unit);
    if Shifted(u, v) { ShiftedKeys(cid, u, v); }
    if Shifted(v, u) { ShiftedKeys(cid, v, u); }
    if Key(cid, u) == Key(cid, v) {
      SameKeyCuts(cid, u, v);
      hide Key, Container;
      if |a| < |b| {
        TwoCuts(a, u.image, b, v.image);
        assert Shifted(u, v);
      } else if |b| < |a| {
        TwoCuts(b, v.image, a, u.image);
        assert Shifted(v, u);
      } else {
        assert (a + "/" + u.image)[..|a|] == a && (b + "/" + v.image)[..|a|] == b;
        assert (a + "/" + u.image)[|a| + 1..] == u.image && (b + "/" + v.image)[|a| + 1..] == v.image;
      }
    }
  }

  /** Container names without a slash are told apart, whatever the images are. */
  lemma NoSlashSeparates(cid: string, u: Update, v: Update)
    requires '/' !in Container(u.unit) && '/' !in Container(v.unit)
    ensures Key(cid, u) == Key(cid, v) <==> Container(u.unit) == Container(v.unit) && u.image == v.image
  {
    SameKeyIff(cid, u, v);
    hide Key, Container;
    forall x, w: string ensures '/' in w + "/" + x {
      assert (w + "/" + x)[|w|] == '/';
    }
  }

  // ---- one report ----

  function Insert(cache: set<string>, cap: nat, key: string): set<string> {
    if key in cache then cache else (if |cache| >= cap then {} else cache) + {key}
  }

  function Keys(cid: string, updates: seq<Update>): set<string> {
    set u | u in updates :: Key(cid, u)
  }

  function Scanned(cache: set<string>, cap: nat, cid: string, updates: seq<Update>): set<string> {
    if updates == [] then cache
    else Insert(Scanned(cache, cap, cid, updates[..|updates| - 1]), cap, Key(cid, updates[|updates| - 1]))
  }

  /** The updates an event is raised for. */
  function Raised(cache: set<string>, cap: nat, cid: string, updates: seq<Update>): seq<Update> {
    if updates == [] then []
    else
      var before, u := updates[..|updates| - 1], updates[|updates| - 1];
      Raised(cache, cap, cid, before) + if Key(cid, u) in Scanned(cache, cap, cid, before) then [] else [u]
  }

  predicate Belongs(key: string, cid: string) {
    cid + "/" <= key
  }

  function Own(cache: set<string>, cid: string): set<string> {
    set k | k in cache && Belongs(k, cid)
  }

  function Handled(cache: set<string>, cap: nat, r: Report): set<string> {
    if !Processed(r) then cache
    else
      var scanned := Scanned(cache, cap, r.cid, r.updates);
      scanned - (Own(scanned, r.cid) - Keys(r.cid, r.updates))
  }

  function Deliver(u: Update, cid: string, hooks: seq<Hook>): seq<Delivery> {
    if hooks == [] then []
    else
      var h := hooks[|hooks| - 1];
      Deliver(u, cid, hooks[..|hooks| - 1])
      + if h.container != "" && h.container != Container(u.unit) then []
        else [Delivery(h.url, cid, Container(u.unit), u.image, u.policy)]
  }

  function Deliveries(raised: seq<Update>, cid: string, hooks: seq<Hook>): seq<Delivery> {
    if raised == [] then []
    else Deliveries(raised[..|raised| - 1], cid, hooks) + Deliver(raised[|raised| - 1], cid, hooks)
  }

  function Sent(cache: set<string>, cap: nat, r: Report): seq<Delivery> {
    if !Processed(r) then []
    else Deliveries(Raised(cache, cap, r.cid, r.updates), r.cid, AlertHooks(r.hooks, r.cid))
  }

  /** Compartment ids hold no slash, so a key tells its compartment. */
  predicate Slug(cid: string) {
    '/' !in cid
  }

  lemma OwnerEnds(key: string, cid: string)
    requires Slug(cid) && Belongs(key, cid)
    ensures |cid| < |key| && IndexOf(key, '/') == |cid| && key[..|cid|] == cid
  {
    var prefix := cid + "/";
    assert key[..|prefix|] == prefix && prefix[..|cid|] == cid && prefix[|cid|] == '/';
    forall j | 0 <= j < |cid| ensures key[j] != '/' {
      assert key[j] == prefix[j] == cid[j];
    }
    IndexOfUnique(key, '/', |cid|);
  }

  lemma OneOwner(key: string, a: string, b: string)
    requires Slug(a) && Slug(b) && Belongs(key, a) && Belongs(key, b)
    ensures a == b
  {
    OwnerEnds(key, a);
    OwnerEnds(key, b);
  }

  lemma KeyBelongs(cid: string, u: Update)
    ensures Belongs(Key(cid, u), cid)
  {
    assert Key(cid, u) == (cid + "/") + (Container(u.unit) + "/" + u.image);
  }

  lemma KeysBelong(cid: string, updates: seq<Update>)
    ensures forall k :: k in Keys(cid, updates) ==> Belongs(k, cid)
  {
    forall u | u in updates ensures Belongs(Key(cid, u), cid) {
      KeyBelongs(cid, u);
    }
  }

  lemma KeysStep(cid: string, updates: seq<Update>)
    requires updates != []
    ensures Keys(cid, updates) == Keys(cid, updates[..|updates| - 1]) + {Key(cid, updates[|updates| - 1])}
  {
    var before, u := updates[..|updates| - 1], updates[|updates| - 1];
    assert updates == before + [u];
    forall k | k in Keys(cid, before) + {Key(cid, u)} ensures k in Keys(cid, updates) {
      if k == Key(cid, u) {
        assert u in updates;
      } else {
        var v :| v in before && Key(cid, v) == k;
        assert v in updates;
      }
    }
  }

  /** The set never grows past its cap. */
  lemma {:induction false} ScanBound(cache: set<string>, cap: nat, cid: string, updates: seq<Update>)
    requires |cache| <= cap && 0 < cap
    ensures |Scanned(cache, cap, cid, updates)| <= cap
  {
    if updates != [] {
      ScanBound(cache, cap, cid, updates[..|updates| - 1]);
    }
  }

  lemma HandledBound(cache: set<string>, cap: nat, r: Report)
    requires |cache| <= cap && 0 < cap
    ensures |Handled(cache, cap, r)| <= cap
  {
    ScanBound(cache, cap, r.cid, r.updates);
    hide Scanned, Own, Keys;
    if Processed(r) {
      SubsetSize(Handled(cache, cap, r), Scanned(cache, cap, r.cid, r.updates));
    }
  }

  /** There is room when the old keys and those of the report fit together. */
  predicate Room(cache: set<string>, cap: nat, cid: string, updates: seq<Update>) {
    |cache + Keys(cid, updates)| <= cap
  }

  lemma InsertIs(cache: set<string>, cap: nat, keys: set<string>, key: string, scanned: set<string>)
    requires 0 < cap
    requires if |cache + keys| <= cap then scanned == cache + keys else scanned <= keys
    ensures |cache + (keys + {key})| <= cap ==> Insert(scanned, cap, key) == cache + (keys + {key})
    ensures |cache + (keys + {key})| > cap ==> Insert(scanned, cap, key) <= keys + {key}
  {
    var all := cache + keys;
    assert cache + (keys + {key}) == all + {key};
    SubsetSize(all, all + {key});
  }

  /** With room the scan only adds; without, everything from before the report is gone. */
  lemma {:induction false} ScanIs(cache: set<string>, cap: nat, cid: string, updates: seq<Update>)
    requires |cache| <= cap && 0 < cap
    ensures Room(cache, cap, cid, updates) ==> Scanned(cache, cap, cid, updates) == cache + Keys(cid, updates)
    ensures !Room(cache, cap, cid, updates) ==> Scanned(cache, cap, cid, updates) <= Keys(cid, updates)
  {
    if updates == [] {
      assert cache + Keys(cid, updates) == cache;
    } else {
      var before, key := updates[..|updates| - 1], Key(cid, updates[|updates| - 1]);
      ScanIs(cache, cap, cid, before);
      KeysStep(cid, updates);
      hide Keys, Key, Insert;
      InsertIs(cache, cap, Keys(cid, before), key, Scanned(cache, cap, cid, before));
    }
  }

  lemma {:induction false} ScanWithin(cache: set<string>, cap: nat, cid: string, updates: seq<Update>)
    ensures Scanned(cache, cap, cid, updates) <= cache + Keys(cid, updates)
  {
    if updates != [] {
      ScanWithin(cache, cap, cid, updates[..|updates| - 1]);
      KeysStep(cid, updates);
    }
  }

  /** What a processed report leaves: the other compartments' keys and its own, or, without room, some of
      its own only. */
  lemma HandledIs(cache: set<string>, cap: nat, r: Report)
    requires |cache| <= cap && 0 < cap && Processed(r)
    ensures Room(cache, cap, r.cid, r.updates)
            ==> Handled(cache, cap, r) == (cache - Own(cache, r.cid)) + Keys(r.cid, r.updates)
    ensures !Room(cache, cap, r.cid, r.updates) ==> Handled(cache, cap, r) <= Keys(r.cid, r.updates)
  {
    ScanIs(cache, cap, r.cid, r.updates);
    KeysBelong(r.cid, r.updates);
    hide Scanned, Keys, Processed, Belongs;
  }

  /** A report leaves every other compartment's keys alone exactly when there is room or there are none. */
  lemma OthersKeptIff(cache: set<string>, cap: nat, r: Report)
    requires |cache| <= cap && 0 < cap && Processed(r) && Slug(r.cid)
    ensures (forall c :: Slug(c) && c != r.cid ==> Own(Handled(cache, cap, r), c) == Own(cache, c))
            <==> Room(cache, cap, r.cid, r.updates) || forall c :: Slug(c) && c != r.cid ==> Own(cache, c) == {}
  {
    HandledIs(cache, cap, r);
    forall c | Slug(c) && c != r.cid
      ensures Room(cache, cap, r.cid, r.updates) ==> Own(Handled(cache, cap, r), c) == Own(cache, c)
      ensures !Room(cache, cap, r.cid, r.updates) ==> Own(Handled(cache, cap, r), c) == {}
    {
      OthersAfter(cache, cap, r, c);
    }
  }

  lemma OthersAfter(cache: set<string>, cap: nat, r: Report, c: string)
    requires |cache| <= cap && 0 < cap && Processed(r) && Slug(r.cid) && Slug(c) && c != r.cid
    ensures Room(cache, cap, r.cid, r.updates) ==> Own(Handled(cache, cap, r), c) == Own(cache, c)
    ensures !Room(cache, cap, r.cid, r.updates) ==> Own(Handled(cache, cap, r), c) == {}
  {
    HandledIs(cache, cap, r);
    KeysBelong(r.cid, r.updates);
    hide Handled, Keys, Belongs, Processed, Slug, Room;
    forall k | Belongs(k, c) ensures !Belongs(k, r.cid) {
      if Belongs(k, r.cid) {
        OneOwner(k, c, r.cid);
      }
    }
  }

  /** The reporting compartment's keys afterwards: those it reported, or without room some of them. */
  lemma OwnAfter(cache: set<string>, cap: nat, r: Report)
    requires |cache| <= cap && 0 < cap && Processed(r)
    ensures Own(Handled(cache, cap, r), r.cid) <= Keys(r.cid, r.updates)
    ensures Room(cache, cap, r.cid, r.updates) ==> Own(Handled(cache, cap, r), r.cid) == Keys(r.cid, r.updates)
  {
    HandledIs(cache, cap, r);
    KeysBelong(r.cid, r.updates);
    hide Handled, Keys, Belongs, Processed, Room;
  }

  // ---- runs ----

  function After(cap: nat, run: seq<Report>): set<string> {
    if run == [] then {} else Handled(After(cap, run[..|run| - 1]), cap, run[|run| - 1])
  }

  predicate Lawful(run: seq<Report>) {
    forall i :: 0 <= i < |run| ==> Slug(run[i].cid)
  }

  /** Every processed report of the run found room. */
  predicate Roomy(cap: nat, run: seq<Report>) {
    run == [] ||
    (Roomy(cap, run[..|run| - 1])
     && (Processed(run[|run| - 1]) ==>
           Room(After(cap, run[..|run| - 1]), cap, run[|run| - 1].cid, run[|run| - 1].updates)))
  }

  /** The keys of the compartment's latest processed report. */
  function Previous(run: seq<Report>, cid: string): set<string> {
    if run == [] then {}
    else
      var r := run[|run| - 1];
      if r.cid == cid && Processed(r) then Keys(cid, r.updates) else Previous(run[..|run| - 1], cid)
  }

  lemma {:induction false} RunBound(cap: nat, run: seq<Report>)
    requires 0 < cap
    ensures |After(cap, run)| <= cap
  {
    if run != [] {
      RunBound(cap, run[..|run| - 1]);
      HandledBound(After(cap, run[..|run| - 1]), cap, run[|run| - 1]);
    }
  }

  /** In every run the keys kept for a compartment are among those of its latest processed report; while
      there was always room, they are exactly those. */
  lemma {:induction false} CacheIsPrevious(cap: nat, run: seq<Report>, cid: string)
    requires 0 < cap && Lawful(run) && Slug(cid)
    ensures Own(After(cap, run), cid) <= Previous(run, cid)
    ensures Roomy(cap, run) ==> Own(After(cap, run), cid) == Previous(run, cid)
  {
    if run != [] {
      var before, r := run[..|run| - 1], run[|run| - 1];
      CacheIsPrevious(cap, before, cid);
      RunBound(cap, before);
      hide Keys, Belongs, Processed, Slug, Own, Room, Handled;
      assert Slug(r.cid);
      if !Processed(r) {
        Unprocessed(After(cap, before), cap, r);
      } else if r.cid == cid {
        OwnAfter(After(cap, before), cap, r);
      } else {
        OthersAfter(After(cap, before), cap, r, cid);
      }
    }
  }

  lemma Unprocessed(cache: set<string>, cap: nat, r: Report)
    requires !Processed(r)
    ensures Handled(cache, cap, r) == cache
  {
  }

  /** The updates whose key is neither among known nor earlier in the list. */
  function FirstNew(known: set<string>, cid: string, updates: seq<Update>): seq<Update> {
    if updates == [] then []
    else
      var before, u := updates[..|updates| - 1], updates[|updates| - 1];
      FirstNew(known, cid, before) + if Key(cid, u) in known + Keys(cid, before) then [] else [u]
  }

  lemma {:induction false} RaisedWithRoom(cache: set<string>, cap: nat, cid: string, updates: seq<Update>)
    requires |cache| <= cap && 0 < cap && Room(cache, cap, cid, updates)
    ensures Raised(cache, cap, cid, updates) == FirstNew(Own(cache, cid), cid, updates)
  {
    if updates != [] {
      var before, u := updates[..|updates| - 1], updates[|updates| - 1];
      KeysStep(cid, updates);
      SubsetSize(cache + Keys(cid, before), cache + Keys(cid, updates));
      ScanIs(cache, cap, cid, before);
      KeyBelongs(cid, u);
      RaisedWithRoom(cache, cap, cid, before);
    }
  }

  /** While there was always room, a report raises an event exactly for the first mention of each key the
      compartment's previous processed report did not have. */
  lemma RaisedIffNew(cap: nat, run: seq<Report>, r: Report)
    requires 0 < cap && Lawful(run + [r]) && Processed(r) && Roomy(cap, run + [r])
    ensures Raised(After(cap, run), cap, r.cid, r.updates) == FirstNew(Previous(run, r.cid), r.cid, r.updates)
  {
    assert (run + [r])[..|run|] == run && (run + [r])[|run|] == r;
    RunBound(cap, run);
    CacheIsPrevious(cap, run, r.cid);
    RaisedWithRoom(After(cap, run), cap, r.cid, r.updates);
  }

  /** Room or not, in every run: an event is raised for every key the previous processed report did not have. */
  lemma NoneMissed(cap: nat, run: seq<Report>, r: Report, u: Update) returns (v: Update)
    requires 0 < cap && Lawful(run + [r]) && u in r.updates && Key(r.cid, u) !in Previous(run, r.cid)
    ensures v in Raised(After(cap, run), cap, r.cid, r.updates) && Key(r.cid, v) == Key(r.cid, u)
  {
    assert (run + [r])[..|run|] == run && (run + [r])[|run|] == r;
    CacheIsPrevious(cap, run, r.cid);
    KeyBelongs(r.cid, u);
    v := FirstMention(After(cap, run), cap, r.cid, r.updates, u);
  }

  lemma {:induction false} FirstMention(cache: set<string>, cap: nat, cid: string, updates: seq<Update>, u: Update)
    returns (v: Update)
    requires u in updates && Key(cid, u) !in cache
    ensures v in Raised(cache, cap, cid, updates) && Key(cid, v) == Key(cid, u)
  {
    var before, last := updates[..|updates| - 1], updates[|updates| - 1];
    assert updates == before + [last];
    hide Key;
    if w :| w in before && Key(cid, w) == Key(cid, u) {
      v := FirstMention(cache, cap, cid, before, w);
    } else {
      v := last;
      ScanWithin(cache, cap, cid, before);
    }
  }

  lemma OneMore(cache: set<string>, cap: nat, cid: string, before: seq<Update>, u: Update)
    ensures var key, scanned := Key(cid, u), Scanned(cache, cap, cid, before);
            Scanned(cache, cap, cid, before + [u]) == Insert(scanned, cap, key)
            && Raised(cache, cap, cid, before + [u])
               == Raised(cache, cap, cid, before) + if key in scanned then [] else [u]
  {
    assert (before + [u])[..|before|] == before;
  }

  /** Of two updates that share a key only the first raises an event, though they may name different containers. */
  lemma SharedKeyIsSilent(cache: set<string>, cap: nat, cid: string, u: Update, v: Update)
    requires Shifted(u, v) && Key(cid, u) !in cache
    ensures Raised(cache, cap, cid, [u, v]) == [u]
  {
    assert [] + [u] + [v] == [u, v];
    ShiftedKeys(cid, u, v);
    OneMore(cache, cap, cid, [], u);
    OneMore(cache, cap, cid, [] + [u], v);
    NothingScanned(cache, cap, cid, []);
    hide Scanned, Raised, Key;
  }

  lemma SomeShifted()
    ensures Shifted(Update("web.service", "blog/app", "registry"), Update("web/blog.service", "app", "registry"))
  {
    var first, second := "web.service", "web/blog.service";
    assert first[3..] == SUFFIX && second[8..] == SUFFIX && first[..3] == "web" && second[..8] == "web/blog";
    assert "web/blog" == "web" + "/" + "blog" && "blog/app" == "blog" + "/" + "app";
  }

  // ---- what a clear does ----

  /** The update at j finds the set full and empties it. */
  predicate ClearsAt(cache: set<string>, cap: nat, cid: string, updates: seq<Update>, j: nat)
    requires j < |updates|
  {
    var scanned := Scanned(cache, cap, cid, updates[..j]);
    Key(cid, updates[j]) !in scanned && |scanned| >= cap
  }

  predicate RaisedAt(cache: set<string>, cap: nat, cid: string, updates: seq<Update>, i: nat)
    requires i < |updates|
  {
    Key(cid, updates[i]) !in Scanned(cache, cap, cid, updates[..i])
  }

  /** Since a clear before n the key has not come up. */
  ghost predicate Forgotten(cache: set<string>, cap: nat, cid: string, updates: seq<Update>, n: nat, key: string)
    requires n <= |updates|
  {
    exists j :: 0 <= j < n && ClearsAt(cache, cap, cid, updates, j) && key !in Keys(cid, updates[j..n])
  }

  lemma KeysSnoc(cid: string, updates: seq<Update>, j: nat, n: nat)
    requires j <= n < |updates|
    ensures Keys(cid, updates[j..n + 1]) == Keys(cid, updates[j..n]) + {Key(cid, updates[n])}
  {
    var part := updates[j..n + 1];
    assert part[..|part| - 1] == updates[j..n] && part[|part| - 1] == updates[n];
    KeysStep(cid, part);
  }

  lemma ForgottenStep(cache: set<string>, cap: nat, cid: string, updates: seq<Update>, n: nat, key: string)
    requires n < |updates|
    ensures Forgotten(cache, cap, cid, updates, n + 1, key)
       <==> key != Key(cid, updates[n])
            && (Forgotten(cache, cap, cid, updates, n, key) || ClearsAt(cache, cap, cid, updates, n))
  {
    hide Key, Keys, ClearsAt;
    forall j | 0 <= j <= n ensures Keys(cid, updates[j..n + 1]) == Keys(cid, updates[j..n]) + {Key(cid, updates[n])} {
      KeysSnoc(cid, updates, j, n);
    }
    assert updates[n..n] == [];
    NoKeys(cid);
    if key != Key(cid, updates[n]) && ClearsAt(cache, cap, cid, updates, n) {
      assert key !in Keys(cid, updates[n..n + 1]);
    }
    if j :| 0 <= j < n && ClearsAt(cache, cap, cid, updates, j) && key !in Keys(cid, updates[j..n]) {
      assert key != Key(cid, updates[n]) ==> key !in Keys(cid, updates[j..n + 1]);
    }
  }

  lemma NoKeys(cid: string)
    ensures Keys(cid, []) == {}
  {
  }

  /** A key is missing after n updates exactly when it was never there, or a clear took it and it has not
      come up since. */
  lemma {:induction false} MissingIff(cache: set<string>, cap: nat, cid: string, updates: seq<Update>, n: nat,
                                      key: string)
    requires n <= |updates|
    ensures key !in Scanned(cache, cap, cid, updates[..n])
       <==> key !in cache + Keys(cid, updates[..n]) || Forgotten(cache, cap, cid, updates, n, key)
  {
    hide *;
    if n == 0 {
      NoKeys(cid);
      NothingScanned(cache, cap, cid, []);
      NotForgotten(cache, cap, cid, updates, key);
      assert updates[..0] == [];
    } else {
      var before, k := updates[..n - 1], Key(cid, updates[n - 1]);
      MissingIff(cache, cap, cid, updates, n - 1, key);
      ForgottenStep(cache, cap, cid, updates, n - 1, key);
      OneMore(cache, cap, cid, before, updates[n - 1]);
      KeysSnoc(cid, updates, 0, n - 1);
      ClearsAtMeans(cache, cap, cid, updates, n - 1);
      InsertMisses(Scanned(cache, cap, cid, before), cap, k, key);
      assert updates[..n] == before + [updates[n - 1]] && updates[0..n] == updates[..n] && updates[0..n - 1] == before;
    }
  }

  lemma NotForgotten(cache: set<string>, cap: nat, cid: string, updates: seq<Update>, key: string)
    ensures !Forgotten(cache, cap, cid, updates, 0, key)
  {
  }

  lemma InsertMisses(scanned: set<string>, cap: nat, k: string, key: string)
    ensures key !in Insert(scanned, cap, k)
       <==> key != k && (key !in scanned || (k !in scanned && |scanned| >= cap))
  {
  }

  lemma ClearsAtMeans(cache: set<string>, cap: nat, cid: string, updates: seq<Update>, j: nat)
    requires j < |updates|
    ensures var scanned := Scanned(cache, cap, cid, updates[..j]);
            ClearsAt(cache, cap, cid, updates, j) <==> Key(cid, updates[j]) !in scanned && |scanned| >= cap
  {
  }

  /** An event is raised for an update although its key was already notified, or is a repetition, exactly when
      the set was emptied earlier in the report and the key has not come up between. */
  lemma RaisedAgainIff(cache: set<string>, cap: nat, cid: string, updates: seq<Update>, i: nat)
    requires i < |updates| && Key(cid, updates[i]) in cache + Keys(cid, updates[..i])
    ensures RaisedAt(cache, cap, cid, updates, i) <==> Forgotten(cache, cap, cid, updates, i, Key(cid, updates[i]))
  {
    hide Key, Keys, Scanned, Forgotten;
    MissingIff(cache, cap, cid, updates, i, Key(cid, updates[i]));
  }

  ghost predicate Clears(cache: set<string>, cap: nat, cid: string, updates: seq<Update>) {
    exists j :: 0 <= j < |updates| && ClearsAt(cache, cap, cid, updates, j)
  }

  lemma ClearsSnoc(cache: set<string>, cap: nat, cid: string, before: seq<Update>, u: Update)
    ensures Clears(cache, cap, cid, before + [u])
       <==> Clears(cache, cap, cid, before) || ClearsAt(cache, cap, cid, before + [u], |before|)
  {
    hide Key, Scanned;
    var all := before + [u];
    forall j | 0 <= j < |before| ensures ClearsAt(cache, cap, cid, all, j) <==> ClearsAt(cache, cap, cid, before, j) {
      assert all[..j] == before[..j];
    }
  }

  lemma RoomStep(all: set<string>, key: string, scanned: set<string>, cap: nat)
    requires |all| <= cap ==> scanned == all
    ensures |all + {key}| > cap <==> |all| > cap || (key !in scanned && |scanned| >= cap)
  {
    SubsetSize(all, all + {key});
  }

  /** A report empties the set exactly when there is no room for it. */
  lemma {:induction false} ClearsIffNoRoom(cache: set<string>, cap: nat, cid: string, updates: seq<Update>)
    requires |cache| <= cap && 0 < cap
    ensures Clears(cache, cap, cid, updates) <==> !Room(cache, cap, cid, updates)
  {
    hide Keys, Key, Scanned, ClearsAt;
    if updates == [] {
      NoKeys(cid);
      assert cache + Keys(cid, updates) == cache;
    } else {
      hide Clears;
      var before, u := updates[..|updates| - 1], updates[|updates| - 1];
      ClearsIffNoRoom(cache, cap, cid, before);
      assert updates == before + [u] && updates[..|before|] == before;
      ClearsSnoc(cache, cap, cid, before, u);
      ClearsAtMeans(cache, cap, cid, updates, |before|);
      ScanIs(cache, cap, cid, before);
      KeysStep(cid, updates);
      assert cache + Keys(cid, updates) == (cache + Keys(cid, before)) + {Key(cid, u)};
      RoomStep(cache + Keys(cid, before), Key(cid, u), Scanned(cache, cap, cid, before), cap);
    }
  }

  ghost predicate RaisedSomewhere(cache: set<string>, cap: nat, cid: string, updates: seq<Update>, u: Update) {
    exists i :: 0 <= i < |updates| && updates[i] == u && RaisedAt(cache, cap, cid, updates, i)
  }

  lemma RaisedSomewhereSnoc(cache: set<string>, cap: nat, cid: string, before: seq<Update>, last: Update, u: Update)
    ensures RaisedSomewhere(cache, cap, cid, before + [last], u)
       <==> RaisedSomewhere(cache, cap, cid, before, u)
            || (u == last && Key(cid, last) !in Scanned(cache, cap, cid, before))
  {
    hide Scanned, Key;
    var all := before + [last];
    assert all[..|before|] == before && all[|before|] == last;
    assert RaisedAt(cache, cap, cid, all, |before|) <==> Key(cid, last) !in Scanned(cache, cap, cid, before);
    forall i | 0 <= i < |before| ensures RaisedAt(cache, cap, cid, all, i) <==> RaisedAt(cache, cap, cid, before, i) {
      assert all[..i] == before[..i];
    }
    hide RaisedAt;
    if RaisedSomewhere(cache, cap, cid, before, u) {
      var i :| 0 <= i < |before| && before[i] == u && RaisedAt(cache, cap, cid, before, i);
      assert all[i] == u;
    }
  }

  /** The updates events are raised for, by position. */
  lemma {:induction false} RaisedIff(cache: set<string>, cap: nat, cid: string, updates: seq<Update>, u: Update)
    ensures u in Raised(cache, cap, cid, updates) <==> RaisedSomewhere(cache, cap, cid, updates, u)
  {
    hide Scanned, Key;
    if updates != [] {
      hide RaisedSomewhere, Raised;
      var before, last := updates[..|updates| - 1], updates[|updates| - 1];
      RaisedIff(cache, cap, cid, before, u);
      OneMore(cache, cap, cid, before, last);
      RaisedSomewhereSnoc(cache, cap, cid, before, last, u);
      assert updates == before + [last];
    }
  }

  /** At the cap a report that starts with a new key has the first mention of every known key notified again. */
  lemma FullNotifiesAgain(cache: set<string>, cap: nat, cid: string, updates: seq<Update>, i: nat)
    requires |cache| == cap && 0 < cap && 0 < i < |updates| && Key(cid, updates[0]) !in cache
    requires Key(cid, updates[i]) in cache && Key(cid, updates[i]) !in Keys(cid, updates[..i])
    ensures updates[i] in Raised(cache, cap, cid, updates)
  {
    var u := updates[i];
    NothingScanned(cache, cap, cid, []);
    assert updates[..0] == [] && updates[0..i] == updates[..i];
    assert ClearsAt(cache, cap, cid, updates, 0);
    assert Forgotten(cache, cap, cid, updates, i, Key(cid, u));
    RaisedAgainIff(cache, cap, cid, updates, i);
    hide Key, Keys, Scanned, Raised, Forgotten, RaisedAt;
    assert RaisedSomewhere(cache, cap, cid, updates, u);
    RaisedIff(cache, cap, cid, updates, u);
  }

  lemma OneMoreCall(raised: seq<Update>, u: Update, cid: string, hooks: seq<Hook>)
    ensures Deliveries(raised + [u], cid, hooks) == Deliveries(raised, cid, hooks) + Deliver(u, cid, hooks)
  {
    assert (raised + [u])[..|raised|] == raised;
  }

  lemma NothingScanned(cache: set<string>, cap: nat, cid: string, hooks: seq<Hook>)
    ensures Scanned(cache, cap, cid, []) == cache && Raised(cache, cap, cid, []) == [] && Keys(cid, []) == {}
    ensures Deliveries([], cid, hooks) == []
  {
  }

  // ---- what is sent ----

  lemma {:induction false} AlertHooksAre(hooks: seq<Hook>, cid: string, h: Hook)
    ensures h in AlertHooks(hooks, cid) <==> h in hooks && Alerts(h, cid)
  {
    if hooks != [] {
      AlertHooksAre(hooks[..|hooks| - 1], cid, h);
      assert hooks == hooks[..|hooks| - 1] + [hooks[|hooks| - 1]];
    }
  }

  /** h wants to hear about u, and d is the call that tells it. */
  predicate Tells(d: Delivery, h: Hook, u: Update, cid: string) {
    (h.container == "" || h.container == Container(u.unit))
    && d == Delivery(h.url, cid, Container(u.unit), u.image, u.policy)
  }

  ghost predicate SomeTells(d: Delivery, hooks: seq<Hook>, u: Update, cid: string) {
    exists h :: h in hooks && Tells(d, h, u, cid)
  }

  lemma SomeTellsStep(d: Delivery, before: seq<Hook>, last: Hook, u: Update, cid: string)
    ensures SomeTells(d, before + [last], u, cid) <==> SomeTells(d, before, u, cid) || Tells(d, last, u, cid)
  {
    hide Tells;
    assert forall h :: h in before + [last] <==> h in before || h == last;
  }

  lemma {:induction false} DeliverIs(u: Update, cid: string, hooks: seq<Hook>, d: Delivery)
    ensures d in Deliver(u, cid, hooks) <==> SomeTells(d, hooks, u, cid)
  {
    if hooks != [] {
      var before, last := hooks[..|hooks| - 1], hooks[|hooks| - 1];
      DeliverIs(u, cid, before, d);
      assert hooks == before + [last];
      SomeTellsStep(d, before, last, u, cid);
      hide SomeTells;
    }
  }

  ghost predicate SomeDelivers(d: Delivery, raised: seq<Update>, cid: string, hooks: seq<Hook>) {
    exists u :: u in raised && d in Deliver(u, cid, hooks)
  }

  lemma SomeDeliversStep(d: Delivery, before: seq<Update>, last: Update, cid: string, hooks: seq<Hook>)
    ensures SomeDelivers(d, before + [last], cid, hooks)
            <==> SomeDelivers(d, before, cid, hooks) || d in Deliver(last, cid, hooks)
  {
    hide Deliver;
    assert forall u :: u in before + [last] <==> u in before || u == last;
  }

  lemma {:induction false} DeliveriesAre(raised: seq<Update>, cid: string, hooks: seq<Hook>, d: Delivery)
    ensures d in Deliveries(raised, cid, hooks) <==> SomeDelivers(d, raised, cid, hooks)
  {
    hide Deliver;
    if raised != [] {
      var before, last := raised[..|raised| - 1], raised[|raised| - 1];
      DeliveriesAre(before, cid, hooks, d);
      assert raised == before + [last];
      SomeDeliversStep(d, before, last, cid, hooks);
      hide SomeDelivers;
    }
  }

  /** What the call for an update says. */
  lemma ContainerIs(name: string)
    ensures Container(name + ".service") == name
    ensures (forall stem :: name != stem + ".service") ==> Container(name) == name
  {
    var unitName := name + ".service";
    assert unitName[|name|..] == ".service" && unitName[..|name|] == name;
    if Container(name) != name { assert name == Container(name) + ".service"; }
  }

  /** A webhook is called exactly for the enabled image-update hooks of the reporting compartment that
      listen to all containers or to this one, and the updates an event is raised for. */
  lemma SentIff(cache: set<string>, cap: nat, r: Report, d: Delivery)
    ensures d in Sent(cache, cap, r)
            <==> exists u, h :: u in Raised(cache, cap, r.cid, r.updates) && h in r.hooks
                                && h.compartment == r.cid && h.eventType == "on_image_update" && h.enabled
                                && (h.container == "" || h.container == Container(u.unit))
                                && d == Delivery(h.url, r.cid, Container(u.unit), u.image, u.policy)
  {
    var hooks, raised := AlertHooks(r.hooks, r.cid), Raised(cache, cap, r.cid, r.updates);
    hide AlertHooks, Raised, Deliver, Deliveries, Container, Key;
    DeliveriesAre(raised, r.cid, hooks, d);
    forall h ensures h in hooks <==> h in r.hooks && Alerts(h, r.cid) {
      AlertHooksAre(r.hooks, r.cid, h);
    }
    forall u ensures d in Deliver(u, r.cid, hooks) <==> SomeTells(d, hooks, u, r.cid) {
      DeliverIs(u, r.cid, hooks, d);
    }
    if r.updates == [] {
      NothingScanned(cache, cap, r.cid, hooks);
    }
    SentFrom(cache, cap, r, d, hooks, raised);
  }

  lemma SentFrom(cache: set<string>, cap: nat, r: Report, d: Delivery, hooks: seq<Hook>, raised: seq<Update>)
    requires hooks == AlertHooks(r.hooks, r.cid) && raised == Raised(cache, cap, r.cid, r.updates)
    requires d in Deliveries(raised, r.cid, hooks) <==> SomeDelivers(d, raised, r.cid, hooks)
    requires forall h :: h in hooks <==> h in r.hooks && Alerts(h, r.cid)
    requires forall u :: d in Deliver(u, r.cid, hooks) <==> SomeTells(d, hooks, u, r.cid)
    requires r.updates == [] ==> raised == []
    ensures d in Sent(cache, cap, r)
       <==> exists u, h :: u in raised && h in r.hooks && Alerts(h, r.cid) && Tells(d, h, u, r.cid)
  {
    hide AlertHooks, Raised, Deliver, Deliveries, Alerts, Tells, Key;
    if u, h :| u in raised && h in r.hooks && Alerts(h, r.cid) && Tells(d, h, u, r.cid) {
      assert h in hooks && SomeTells(d, hooks, u, r.cid);
    }
  }

  /** A report is looked at exactly when it is not empty and the compartment has an enabled image-update hook;
      otherwise nothing is sent and no key is remembered or forgotten. */
  lemma ProcessedIff(cache: set<string>, cap: nat, r: Report)
    ensures Processed(r)
       <==> r.updates != []
            && exists h :: h in r.hooks && h.compartment == r.cid && h.eventType == "on_image_update" && h.enabled
    ensures !Processed(r) ==> Handled(cache, cap, r) == cache && Sent(cache, cap, r) == []
  {
    forall h ensures h in AlertHooks(r.hooks, r.cid) <==> h in r.hooks && Alerts(h, r.cid) {
      AlertHooksAre(r.hooks, r.cid, h);
    }
    hide AlertHooks, Scanned, Keys, Own;
    if AlertHooks(r.hooks, r.cid) != [] { assert AlertHooks(r.hooks, r.cid)[0] in AlertHooks(r.hooks, r.cid); }
  }

  /** How many hooks of the compartment want to hear about u. */
  function Listeners(hooks: seq<Hook>, cid: string, u: Update): nat {
    if hooks == [] then 0
    else
      var h := hooks[0];
      (if h.compartment == cid && h.eventType == "on_image_update" && h.enabled
          && (h.container == "" || h.container == Container(u.unit)) then 1 else 0) + Listeners(hooks[1..], cid, u)
  }

  function AllListeners(hooks: seq<Hook>, cid: string, us: seq<Update>): nat {
    if us == [] then 0 else Listeners(hooks, cid, us[0]) + AllListeners(hooks, cid, us[1..])
  }

  lemma {:induction false} ListenersSnoc(hooks: seq<Hook>, h: Hook, cid: string, u: Update)
    ensures Listeners(hooks + [h], cid, u) == Listeners(hooks, cid, u) + Listeners([h], cid, u)
  {
    hide Container;
    if hooks == [] {
      assert [] + [h] == [h];
    } else {
      assert (hooks + [h])[1..] == hooks[1..] + [h];
      ListenersSnoc(hooks[1..], h, cid, u);
    }
  }

  lemma {:induction false} AllListenersSnoc(hooks: seq<Hook>, cid: string, us: seq<Update>, u: Update)
    ensures AllListeners(hooks, cid, us + [u]) == AllListeners(hooks, cid, us) + Listeners(hooks, cid, u)
  {
    hide Listeners;
    if us == [] {
      assert ([] + [u])[1..] == [];
    } else {
      assert (us + [u])[1..] == us[1..] + [u];
      AllListenersSnoc(hooks, cid, us[1..], u);
    }
  }

  lemma {:induction false} DeliverCount(u: Update, cid: string, hooks: seq<Hook>)
    ensures |Deliver(u, cid, AlertHooks(hooks, cid))| == Listeners(hooks, cid, u)
  {
    hide Container;
    if hooks != [] {
      var front, h := hooks[..|hooks| - 1], hooks[|hooks| - 1];
      DeliverCount(u, cid, front);
      assert hooks == front + [h];
      ListenersSnoc(front, h, cid, u);
      assert [h][1..] == [];
      var alerts := AlertHooks(front, cid);
      assert alerts + [] == alerts && (alerts + [h])[..|alerts|] == alerts;
      assert AlertHooks(hooks, cid) == if Alerts(h, cid) then alerts + [h] else alerts;
    }
  }

  lemma {:induction false} DeliveriesCount(us: seq<Update>, cid: string, hooks: seq<Hook>)
    ensures |Deliveries(us, cid, AlertHooks(hooks, cid))| == AllListeners(hooks, cid, us)
  {
    hide Deliver, AlertHooks, Listeners;
    if us != [] {
      var front, u := us[..|us| - 1], us[|us| - 1];
      DeliveriesCount(front, cid, hooks);
      assert us == front + [u];
      AllListenersSnoc(hooks, cid, front, u);
      DeliverCount(u, cid, hooks);
    }
  }

  /** Every raised update makes one call a hook that wants to hear about it. */
  lemma SentCount(cache: set<string>, cap: nat, r: Report)
    requires Processed(r)
    ensures |Sent(cache, cap, r)| == AllListeners(r.hooks, r.cid, Raised(cache, cap, r.cid, r.updates))
  {
    DeliveriesCount(Raised(cache, cap, r.cid, r.updates), r.cid, r.hooks);
    hide Deliveries, AlertHooks, Raised, AllListeners;
  }

  // ---- the program's handler ----

  class Notifier {
    const cap: nat
    var notified: set<string>

    constructor (cap: nat)
      ensures this.cap == cap && notified == {}
    {
      this.cap, notified := cap, {};
    }

    /** handle_image_updates_report; hooks are all hooks of the database. */
    method HandleReport(cid: string, updates: seq<Update>, hooks: seq<Hook>) returns (sent: seq<Delivery>)
      modifies `notified
      ensures notified == Handled(old(notified), cap, Report(cid, updates, hooks))
      ensures sent == Sent(old(notified), cap, Report(cid, updates, hooks))
    {
      sent := [];
      if updates == [] {
        return;
      }
      var alertHooks := [];
      for n := 0 to |hooks|
        invariant notified == old(notified)
        invariant alertHooks == AlertHooks(hooks[..n], cid)
      {
        assert hooks[..n + 1][..n] == hooks[..n];
        if Alerts(hooks[n], cid) {
          alertHooks := alertHooks + [hooks[n]];
        }
      }
      assert hooks[..|hooks|] == hooks;
      if alertHooks == [] {
        return;
      }
      var stillPending := {};
      sent, stillPending := Scan(cid, updates, alertHooks);
      notified := notified - (set k | k in notified && Belongs(k, cid) && k !in stillPending);
    }

    method Scan(cid: string, updates: seq<Update>, alertHooks: seq<Hook>)
      returns (sent: seq<Delivery>, pending: set<string>)
      modifies `notified
      ensures notified == Scanned(old(notified), cap, cid, updates) && pending == Keys(cid, updates)
      ensures sent == Deliveries(Raised(old(notified), cap, cid, updates), cid, alertHooks)
    {
      hide Scanned, Raised, Key, Keys, Deliver, Deliveries;
      sent, pending := [], {};
      ghost var raised: seq<Update> := [];
      NothingScanned(notified, cap, cid, alertHooks);
      for n := 0 to |updates|
        invariant notified == Scanned(old(notified), cap, cid, updates[..n])
        invariant pending == Keys(cid, updates[..n])
        invariant raised == Raised(old(notified), cap, cid, updates[..n]) && sent == Deliveries(raised, cid, alertHooks)
      {
        var u := updates[n];
        var key := Key(cid, u);
        KeysStep(cid, updates[..n + 1]);
        assert updates[..n + 1][..n] == updates[..n] && updates[..n + 1] == updates[..n] + [u];
        OneMore(old(notified), cap, cid, updates[..n], u);
        pending := pending + {key};
        if key !in notified {
          if |notified| >= cap {
            notified := {};
          }
          notified := notified + {key};
          var calls := FireHooks(u, cid, alertHooks);
          OneMoreCall(raised, u, cid, alertHooks);
          sent, raised := sent + calls, raised + [u];
        }
      }
      assert updates[..|updates|] == updates;
    }

    method FireHooks(u: Update, cid: string, alertHooks: seq<Hook>) returns (calls: seq<Delivery>)
      ensures calls == Deliver(u, cid, alertHooks)
    {
      calls := [];
      for n := 0 to |alertHooks|
        invariant calls == Deliver(u, cid, alertHooks[..n])
      {
        assert alertHooks[..n + 1][..n] == alertHooks[..n];
        if alertHooks[n].container == "" || alertHooks[n].container == Container(u.unit) {
          calls := calls + [Delivery(alertHooks[n].url, cid, Container(u.unit), u.image, u.policy)];
        }
      }
      assert alertHooks[..|alertHooks|] == alertHooks;
    }
  }
}
