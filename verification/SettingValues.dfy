/** Validation of sysctl values (host_settings.py) and what apply leaves in the settings file. */
module SettingValues {
  import opened Text
  import opened HostSettings

  datatype ValueType = Boolean | Integer | PingRange
  datatype Setting = Setting(key: string, valueType: ValueType, minVal: Option<nat>, maxVal: Option<nat>)

  /** The settings that can be changed, their keys in pieces as in HostSettings.BANNER. */
  const SETTINGS: seq<Setting> := [
    Setting("net.ipv4." + "ip_unprivileged" + "_port_start", Integer, Some(0), Some(65535)),
    Setting("net.ipv4." + "ip_forward", Boolean, None, None),
    Setting("net.ipv4." + "ping_group_range", PingRange, Some(0), Some(2147483647)),
    Setting("user." + "max_user_" + "namespaces", Integer, Some(0), Some(65536)),
    Setting("kernel." + "unprivileged_" + "userns_clone", Boolean, None, None),
    Setting("vm." + "max_map_count", Integer, Some(65530), Some(2097152)),
    Setting("fs.inotify." + "max_user_watches", Integer, Some(8192), Some(4194304)),
    Setting("fs.inotify." + "max_user_instances", Integer, Some(128), Some(65536))
  ]

  const MAX_PING := 2147483647

  // ---- split() and join ----

  function Clean(s: string): string {
    Join(" ", Words(s))
  }

  predicate AllWords(ws: seq<string>) {
    forall i :: 0 <= i < |ws| ==> Word(ws[i])
  }

  lemma {:induction false} WordsAreWords(s: string)
    ensures AllWords(Words(s))
    decreases |s|
  {
    if s != "" {
      if IsSpace(s[0]) {
        WordsAreWords(s[1..]);
      } else {
        var i := FirstSpace(s);
        WordsAreWords(s[i..]);
        assert Word(s[..i]);
      }
    }
  }

  /** Splitting joined words gives them back. */
  lemma {:induction false} WordsJoin(ws: seq<string>)
    requires AllWords(ws)
    ensures Words(Join(" ", ws)) == ws
  {
    hide Words, Word;
    if ws == [] {
      NoWords();
    } else if |ws| == 1 {
      WordFirst(ws[0], "");
      NoWords();
      assert ws[0] + "" == ws[0];
    } else {
      WordsJoin(ws[1..]);
      WordsCons(ws[0], Join(" ", ws[1..]));
    }
  }

  lemma NoWords()
    ensures Words("") == []
  {
  }

  lemma WordGood(w: string)
    requires Word(w)
    ensures GoodValue(w)
  {
    BreaksAreSpaces();
    hide IsSpace, IsLineBreak;
    forall i | 0 <= i < |w| ensures !IsLineBreak(w[i]) { assert !IsSpace(w[i]); }
  }

  /** Every line break is white space. */
  lemma BreaksAreSpaces()
    ensures forall c: char :: IsLineBreak(c) ==> IsSpace(c)
  {
  }

  lemma {:induction false} JoinGood(ws: seq<string>)
    requires AllWords(ws)
    ensures GoodValue(Join(" ", ws)) && (ws != [] ==> Join(" ", ws) != "" && Join(" ", ws)[0] == ws[0][0])
  {
    if ws != [] {
      WordGood(ws[0]);
      if |ws| > 1 {
        JoinGood(ws[1..]);
        hide IsSpace, Word;
        var rest := Join(" ", ws[1..]);
        var t := ws[0] + " " + rest;
        assert !IsLineBreak(' ');
        hide IsLineBreak;
        assert t[|t| - 1] == rest[|rest| - 1] && t[0] == ws[0][0];
        assert OneLine(t) by { SpacedOneLine(ws[0], rest); }
      }
    }
  }

  lemma SpacedOneLine(a: string, b: string)
    requires OneLine(a) && OneLine(b)
    ensures OneLine(a + " " + b)
  {
    assert OneLine(" ");
    hide IsLineBreak;
    OneLineConcat(a, " ");
    OneLineConcat(a + " ", b);
  }

  // ---- numbers ----

  lemma NumberIsWord(s: string)
    requires IsNumber(s)
    ensures Word(s)
  {
    assert forall c: char :: '0' <= c <= '9' ==> !IsSpace(c);
    hide IsSpace;
  }

  // ---- _validate_value ----

  predicate HasControl(s: string) {
    '\r' in s || '\n' in s || '\0' in s
  }

  predicate WithinBounds(st: Setting, n: nat) {
    (st.minVal.Some? ==> st.minVal.value <= n) && (st.maxVal.Some? ==> n <= st.maxVal.value)
  }

  function PingBound(st: Setting): nat {
    if st.maxVal.Some? then st.maxVal.value else MAX_PING
  }

  /** None stands for ValueError. */
  function Validate(st: Setting, value: string): Option<string> {
    var cleaned := Clean(value);
    if HasControl(value) || cleaned == "" || |cleaned| > 64 then None
    else
      match st.valueType
      case Boolean => if cleaned == "0" || cleaned == "1" then Some(cleaned) else None
      case Integer => if IsNumber(cleaned) && WithinBounds(st, Number(cleaned)) then Some(cleaned) else None
      case PingRange =>
        var parts := Words(cleaned);
        if |parts| != 2 || !IsNumber(parts[0]) || !IsNumber(parts[1]) then None
        else
          var low, high := Number(parts[0]), Number(parts[1]);
          if low > PingBound(st) || high > PingBound(st) then None else Some(Decimal(low) + " " + Decimal(high))
  }

  /** Two numbers as a ping range prints them. */
  lemma PingPair(low: nat, high: nat)
    ensures var ws := [Decimal(low), Decimal(high)];
            AllWords(ws) && Decimal(low) + " " + Decimal(high) == Join(" ", ws)
  {
    NumberDecimal(low);
    NumberDecimal(high);
    NumberIsWord(Decimal(low));
    NumberIsWord(Decimal(high));
    hide Decimal, Word;
    var ws := [Decimal(low), Decimal(high)];
    assert ws[1..] == [Decimal(high)];
  }

  /** The two numbers of an accepted ping range. */
  lemma PingParts(st: Setting, value: string) returns (low: nat, high: nat)
    requires st.valueType.PingRange? && Validate(st, value).Some?
    ensures Validate(st, value) == Some(Decimal(low) + " " + Decimal(high)) && low <= PingBound(st)
            && high <= PingBound(st)
    ensures |Decimal(low) + " " + Decimal(high)| <= 64
  {
    var parts := Words(Clean(value));
    low, high := Number(parts[0]), Number(parts[1]);
    DecimalShortest(parts[0]);
    DecimalShortest(parts[1]);
    WordsAreWords(value);
    WordsJoin(Words(value));
    hide Decimal, Number, IsNumber, Word, Words;
    assert parts[1..] == [parts[1]];
    assert Clean(value) == parts[0] + " " + parts[1];
  }

  /** An accepted value is one trimmed, non-empty line of words. */
  lemma ValidatedGood(st: Setting, value: string)
    requires Validate(st, value).Some?
    ensures var v := Validate(st, value).value; GoodValue(v) && v != "" && Clean(v) == v
  {
    if st.valueType.PingRange? {
      var low, high := PingParts(st, value);
      PingPair(low, high);
      JoinGood([Decimal(low), Decimal(high)]);
      WordsJoin([Decimal(low), Decimal(high)]);
    } else {
      WordsAreWords(value);
      JoinGood(Words(value));
      WordsJoin(Words(value));
    }
  }

  lemma {:induction false} JoinNoNul(ws: seq<string>)
    requires forall i :: 0 <= i < |ws| ==> '\0' !in ws[i]
    ensures '\0' !in Join(" ", ws)
  {
    if |ws| > 1 { JoinNoNul(ws[1..]); }
  }

  lemma {:induction false} WordsNoNul(s: string)
    requires '\0' !in s
    ensures forall i :: 0 <= i < |Words(s)| ==> '\0' !in Words(s)[i]
    decreases |s|
  {
    if s != "" {
      if IsSpace(s[0]) { WordsNoNul(s[1..]); } else { WordsNoNul(s[FirstSpace(s)..]); }
    }
  }

  lemma NumberNoNul(s: string)
    requires IsNumber(s)
    ensures '\0' !in s
  {
  }

  /** An accepted value has no control character. */
  lemma ValidatedNoControl(st: Setting, value: string)
    requires Validate(st, value).Some?
    ensures !HasControl(Validate(st, value).value)
  {
    ValidatedGood(st, value);
    var v := Validate(st, value).value;
    NoLineBreaks(v);
    if st.valueType.PingRange? {
      var low, high := PingParts(st, value);
      NumberDecimal(low);
      NumberDecimal(high);
      NumberNoNul(Decimal(low));
      NumberNoNul(Decimal(high));
    } else {
      WordsNoNul(value);
      JoinNoNul(Words(value));
    }
  }

  lemma NoLineBreaks(v: string)
    requires OneLine(v)
    ensures '\r' !in v && '\n' !in v
  {
  }

  /** An accepted number, or both of a range, lie within the setting's bounds, and validating an
      accepted value again accepts it unchanged. */
  lemma ValidateIdempotent(st: Setting, value: string)
    requires Validate(st, value).Some?
    ensures var v := Validate(st, value).value;
            && Validate(st, v) == Some(v)
            && match st.valueType
               case Boolean => v == "0" || v == "1"
               case Integer => IsNumber(v) && WithinBounds(st, Number(v))
               case PingRange => exists low: nat, high: nat :: low <= PingBound(st) && high <= PingBound(st)
                                   && v == Decimal(low) + " " + Decimal(high)
  {
    ValidatedGood(st, value);
    ValidatedNoControl(st, value);
    if st.valueType.PingRange? {
      var low, high := PingParts(st, value);
      PingPair(low, high);
      NumberDecimal(low);
      NumberDecimal(high);
      WordsJoin([Decimal(low), Decimal(high)]);
      hide Decimal, Number, IsNumber, Words, HasControl, Word, GoodValue;
    }
  }

  // ---- which values are accepted ----

  predicate AllDigits(w: string) {
    w != "" && forall i :: 0 <= i < |w| ==> '0' <= w[i] <= '9'
  }

  /** The words of an acceptable value and what becomes of it. */
  ghost predicate Accepts(st: Setting, ws: seq<string>, v: string) {
    match st.valueType
    case Boolean => (ws == ["0"] && v == "0") || (ws == ["1"] && v == "1")
    case Integer =>
      |ws| == 1 && v == ws[0] && AllDigits(v)
      && (st.minVal.Some? ==> st.minVal.value <= Number(v)) && (st.maxVal.Some? ==> Number(v) <= st.maxVal.value)
    case PingRange =>
      |ws| == 2 && AllDigits(ws[0]) && AllDigits(ws[1])
      && (var bound := if st.maxVal.Some? then st.maxVal.value else 2147483647;
          Number(ws[0]) <= bound && Number(ws[1]) <= bound)
      && v == Decimal(Number(ws[0])) + " " + Decimal(Number(ws[1]))
  }

  /** Several words do not make a number. */
  lemma SeveralWords(ws: seq<string>)
    requires |ws| > 1
    ensures !IsNumber(Join(" ", ws))
  {
    var s := Join(" ", ws);
    assert s == ws[0] + " " + Join(" ", ws[1..]);
    assert s[|ws[0]|] == ' ';
  }

  lemma NumberIsDigits(w: string)
    ensures IsNumber(w) <==> AllDigits(w)
  {
  }

  lemma BooleanWords(ws: seq<string>)
    requires AllWords(ws) && Words(Join(" ", ws)) == ws
    ensures Join(" ", ws) == "0" <==> ws == ["0"]
    ensures Join(" ", ws) == "1" <==> ws == ["1"]
  {
    WordFirst("0", "");
    WordFirst("1", "");
    NoWords();
    assert "0" + "" == "0" && "1" + "" == "1";
    hide Words;
  }

  /** What validation makes of a value of these words, by type. */
  function ByType(st: Setting, ws: seq<string>, cleaned: string): Option<string> {
    match st.valueType
    case Boolean => if cleaned == "0" || cleaned == "1" then Some(cleaned) else None
    case Integer => if IsNumber(cleaned) && WithinBounds(st, Number(cleaned)) then Some(cleaned) else None
    case PingRange =>
      if |ws| != 2 || !IsNumber(ws[0]) || !IsNumber(ws[1]) then None
      else
        var low, high := Number(ws[0]), Number(ws[1]);
        if low > PingBound(st) || high > PingBound(st) then None else Some(Decimal(low) + " " + Decimal(high))
  }

  lemma ValidateByType(st: Setting, value: string)
    ensures var ws := Words(value);
            Validate(st, value)
            == if HasControl(value) || ws == [] || |Join(" ", ws)| > 64 then None else ByType(st, ws, Join(" ", ws))
  {
    var ws := Words(value);
    WordsAreWords(value);
    WordsJoin(ws);
    JoinGood(ws);
    hide Words, Number, Decimal, IsNumber, HasControl, WithinBounds, PingBound;
  }

  lemma ByTypeIff(st: Setting, ws: seq<string>, v: string)
    requires AllWords(ws) && Words(Join(" ", ws)) == ws && ws != []
    ensures ByType(st, ws, Join(" ", ws)) == Some(v) <==> Accepts(st, ws, v)
  {
    NumberIsDigits(Join(" ", ws));
    match st.valueType
    case Boolean =>
      BooleanWords(ws);
      hide Words, AllWords;
    case Integer =>
      if |ws| > 1 { SeveralWords(ws); }
      hide Words, Number, AllWords;
    case PingRange =>
      if |ws| == 2 {
        NumberIsDigits(ws[0]);
        NumberIsDigits(ws[1]);
      }
      hide Words, Number, Decimal, AllWords, IsNumber, AllDigits;
  }

  /** A value is accepted, as v, exactly when it has no carriage return, line feed or NUL, is not blank, has at
      most 64 characters once its words are joined by single spaces, and is: for a boolean the one word 0 or 1; for
      an integer one word of digits within the bounds, returned as it is; for a ping range two words of digits
      within the upper bound, returned as numbers without leading zeros. */
  lemma AcceptedIff(st: Setting, value: string, v: string)
    ensures Validate(st, value) == Some(v)
       <==> '\r' !in value && '\n' !in value && '\0' !in value && Words(value) != []
            && |Join(" ", Words(value))| <= 64 && Accepts(st, Words(value), v)
  {
    WordsAreWords(value);
    WordsJoin(Words(value));
    ValidateByType(st, value);
    hide Words, Validate, AllWords, Accepts, ByType, Join;
    if Words(value) != [] { ByTypeIff(st, Words(value), v); }
  }

  // ---- apply ----

  predicate PlainKey(k: string) {
    k != "" && forall i :: 0 <= i < |k| ==> 'a' <= k[i] <= 'z' || '0' <= k[i] <= '9' || k[i] == '.' || k[i] == '_'
  }

  lemma PlainKeyIsGood(k: string)
    requires PlainKey(k)
    ensures GoodKey(k)
  {
    hide IsSpace;
    PlainCharacters();
    assert !IsSpace(k[0]) && !IsSpace(k[|k| - 1]);
    hide IsLineBreak;
  }

  lemma PlainCharacters()
    ensures forall c: char :: ('a' <= c <= 'z' || '0' <= c <= '9' || c == '.' || c == '_') ==>
              !IsSpace(c) && !IsLineBreak(c)
  {
  }

  lemma PlainConcat(a: string, b: string)
    requires PlainKey(a) && PlainKey(b)
    ensures PlainKey(a + b)
  {
  }

  lemma NetKeysPlain()
    ensures PlainKey(SETTINGS[0].key) && PlainKey(SETTINGS[1].key) && PlainKey(SETTINGS[2].key)
  {
    PlainConcat("net.ipv4.", "ip_unprivileged");
    PlainConcat("net.ipv4." + "ip_unprivileged", "_port_start");
    PlainConcat("net.ipv4.", "ip_forward");
    PlainConcat("net.ipv4.", "ping_group_range");
    hide PlainKey;
  }

  lemma UserKeysPlain()
    ensures PlainKey(SETTINGS[3].key) && PlainKey(SETTINGS[4].key)
  {
    PlainConcat("user.", "max_user_");
    PlainConcat("user." + "max_user_", "namespaces");
    PlainConcat("kernel.", "unprivileged_");
    PlainConcat("kernel." + "unprivileged_", "userns_clone");
    hide PlainKey;
  }

  lemma ResourceKeysPlain()
    ensures PlainKey(SETTINGS[5].key) && PlainKey(SETTINGS[6].key) && PlainKey(SETTINGS[7].key)
  {
    PlainConcat("vm.", "max_map_count");
    PlainConcat("fs.inotify.", "max_user_watches");
    PlainConcat("fs.inotify.", "max_user_instances");
    hide PlainKey;
  }

  /** Only the keys in the table can be set, and all of them can be read back. */
  lemma SettingKeysGood(i: nat)
    requires i < |SETTINGS|
    ensures GoodKey(SETTINGS[i].key)
  {
    assert |SETTINGS| == 8;
    hide *;
    NetKeysPlain();
    UserKeysPlain();
    ResourceKeysPlain();
    PlainKeyIsGood(SETTINGS[i].key);
  }

  /** apply: whatever value is accepted for a known setting, the file then reads as before with that
      setting at the accepted value. */
  lemma ApplyThenRead(f: File, i: nat, value: string, text: string)
    requires i < |SETTINGS| && Validate(SETTINGS[i], value).Some?
    requires Printed(Known(f)[SETTINGS[i].key := Validate(SETTINGS[i], value).value], text)
    ensures Read(text) == Known(f)[SETTINGS[i].key := Validate(SETTINGS[i], value).value]
  {
    SettingKeysGood(i);
    ValidatedGood(SETTINGS[i], value);
    hide *;
    PersistThenRead(f, SETTINGS[i].key, Validate(SETTINGS[i], value).value, text);
  }
}
