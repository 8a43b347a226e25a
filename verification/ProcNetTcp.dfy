/** The kernel's TCP tables, /proc/net/tcp and tcp6, and the program's parser for them (metrics.py). */
module ProcNetTcp {
  import opened Text

  // ---- numbers ----

  /** The value of a hexadecimal digit, 16 for other characters. */
  function HexDigit(c: char): (d: nat)
    ensures d <= 16
  {
    if '0' <= c <= '9' then c as nat - '0' as nat
    else if 'A' <= c <= 'F' then c as nat - 'A' as nat + 10
    else if 'a' <= c <= 'f' then c as nat - 'a' as nat + 10
    else 16
  }

  predicate IsHex(s: string) {
    s != "" && forall i :: 0 <= i < |s| ==> HexDigit(s[i]) < 16
  }

  /** int(s, 16) on hexadecimal digits */
  function HexVal(s: string): nat {
    if s == "" then 0 else 16 * HexVal(s[..|s| - 1]) + HexDigit(s[|s| - 1])
  }

  function Pow16(n: nat): (p: nat)
    ensures p > 0
  {
    if n == 0 then 1 else 16 * Pow16(n - 1)
  }

  lemma {:induction false} HexValConcat(a: string, b: string)
    ensures HexVal(a + b) == HexVal(a) * Pow16(|b|) + HexVal(b)
  {
    if b == "" {
      assert a + b == a;
    } else {
      var b' := b[..|b| - 1];
      assert (a + b)[..|a + b| - 1] == a + b';
      HexValConcat(a, b');
      Shuffle(HexVal(a), Pow16(|b'|), HexVal(b'), HexDigit(b[|b| - 1]));
    }
  }

  lemma Shuffle(x: int, p: int, y: int, d: int)
    ensures 16 * (x * p + y) + d == x * (16 * p) + (16 * y + d)
  {
    assert 16 * (x * p) == x * (16 * p);
  }

  /** Octet i of a number, the lowest first: (n >> 8 * i) & 0xFF. */
  function Octet(n: nat, i: nat): (o: nat)
    ensures o < 256
  {
    if i == 0 then n % 256 else Octet(n / 256, i - 1)
  }

  function Dotted(a: nat, b: nat, c: nat, d: nat): string {
    Decimal(a) + "." + Decimal(b) + "." + Decimal(c) + "." + Decimal(d)
  }

  function IpOf(n: nat): string {
    Dotted(Octet(n, 0), Octet(n, 1), Octet(n, 2), Octet(n, 3))
  }

  // ---- addresses ----

  /** None: the ValueError of a malformed address. */
  function ParseHexAddr(addr: string): Option<(string, nat)> {
    var i := IndexOf(addr, ':');
    if i == |addr| || IndexOf(addr[i + 1..], ':') < |addr| - i - 1 then None
    else if !IsHex(addr[..i]) || !IsHex(addr[i + 1..]) then None
    else Some((IpOf(HexVal(addr[..i])), HexVal(addr[i + 1..])))
  }

  lemma ShiftByOctet(n: nat, k: nat)
    ensures (k * 256 + n) / 256 == k + n / 256 && (k * 256 + n) % 256 == n % 256
  {
  }

  lemma {:induction false} OctetAbove(n: nat, k: nat, i: nat, w: nat)
    requires i < w
    ensures Octet(k * Pow256(w) + n, i) == Octet(n, i)
  {
    assert k * Pow256(w) == (k * Pow256(w - 1)) * 256;
    ShiftByOctet(n, k * Pow256(w - 1));
    if i > 0 {
      OctetAbove(n / 256, k, i - 1, w - 1);
    }
  }

  function Pow256(n: nat): nat {
    if n == 0 then 1 else 256 * Pow256(n - 1)
  }

  lemma OctetsOfLow32(n: nat, k: nat)
    ensures IpOf(k * 4294967296 + n) == IpOf(n)
  {
    assert Pow256(4) == 4294967296 by {
      assert Pow256(2) == 65536;
    }
    hide Octet, Pow256, Dotted;
    OctetAbove(n, k, 0, 4);
    OctetAbove(n, k, 1, 4);
    OctetAbove(n, k, 2, 4);
    OctetAbove(n, k, 3, 4);
  }

  /** Only the last eight digits of an address count, which is what makes an IPv4-mapped IPv6 address
      read like its IPv4 one. */
  lemma LastEightDigits(high: string, low: string, port: string)
    requires (forall i :: 0 <= i < |high| ==> HexDigit(high[i]) < 16) && IsHex(low) && |low| == 8
    ensures ParseHexAddr(high + low + ":" + port) == ParseHexAddr(low + ":" + port)
  {
    hide IpOf, HexDigit;
    var ip := high + low;
    HexHasNoColon(low);
    if high != "" {
      HexHasNoColon(high);
    }
    ColonCuts(ip, port);
    ColonCuts(low, port);
    HexValConcat(high, low);
    assert Pow16(8) == 4294967296 by { Pow16Eight(); }
    OctetsOfLow32(HexVal(low), HexVal(high));
  }

  lemma Pow16Eight()
    ensures Pow16(8) == 4294967296 && Pow16(4) == 65536
  {
    assert Pow16(2) == 256;
    assert Pow16(4) == 65536;
    assert Pow16(6) == 16777216;
  }

  lemma HexHasNoColon(s: string)
    requires IsHex(s)
    ensures ':' !in s
  {
  }

  lemma ColonCuts(ip: string, port: string)
    requires ':' !in ip
    ensures var s := ip + ":" + port;
            IndexOf(s, ':') == |ip| && s[..|ip|] == ip && s[|ip| + 1..] == port
  {
    IndexOfUnique(ip + ":" + port, ':', |ip|);
  }

  const HEX_DIGITS := "0123456789ABCDEF"

  /** printf's %0wX, for n below 16^w */
  function HexPrint(n: nat, w: nat): (s: string)
    ensures |s| == w
    ensures forall i :: 0 <= i < |s| ==> HexDigit(s[i]) < 16
  {
    if w == 0 then "" else HexPrint(n / 16, w - 1) + [HEX_DIGITS[n % 16]]
  }

  lemma {:induction false} HexPrintRead(n: nat, w: nat)
    requires n < Pow16(w)
    ensures HexVal(HexPrint(n, w)) == n
  {
    if w > 0 {
      HexPrintRead(n / 16, w - 1);
      var s := HexPrint(n, w);
      hide Pow16;
      assert s[..|s| - 1] == HexPrint(n / 16, w - 1);
      DigitOf(n % 16);
      hide HexDigit;
    }
  }

  lemma DigitOf(d: nat)
    requires d < 16
    ensures HexDigit(HEX_DIGITS[d]) == d
  {
  }

  /** Digits are read in either case, and nothing else is a digit. */
  lemma DigitsRead(c: char, d: nat)
    requires d < 16
    ensures HexDigit(c) == d <==> c == "0123456789ABCDEF"[d] || c == "0123456789abcdef"[d]
  {
  }

  /** The words, eight digits each. */
  function HexWords(words: seq<nat>): (s: string)
    ensures forall i :: 0 <= i < |s| ==> HexDigit(s[i]) < 16
  {
    if words == [] then "" else HexPrint(words[0], 8) + HexWords(words[1..])
  }

  const WORD := 4294967296

  /** An address as the kernel holds it, in 32-bit words: none but the last for IPv4, three in front of it,
      high, for IPv6. The last word is given by its octets. */
  datatype Addr = Addr(high: seq<nat>, a: nat, b: nat, c: nat, d: nat, port: nat) {
    predicate Valid() {
      (|high| == 0 || |high| == 3) && (forall i :: 0 <= i < |high| ==> high[i] < WORD)
      && a < 256 && b < 256 && c < 256 && d < 256 && port < 65536
    }

    function Number(): nat {
      a + 256 * b + 65536 * c + 16777216 * d
    }

    /** The kernel's notation: words as numbers of the machine, little-endian. */
    function Print(): string {
      HexWords(high) + HexPrint(Number(), 8) + ":" + HexPrint(port, 4)
    }

    /** What the parser makes of it: the last word only. */
    function Shown(): string {
      Dotted(a, b, c, d)
    }
  }

  lemma OctetOfSum(x: nat, rest: nat, i: nat)
    requires x < 256
    ensures Octet(x + 256 * rest, i) == if i == 0 then x else Octet(rest, i - 1)
  {
    assert (x + 256 * rest) / 256 == rest;
  }

  lemma LittleEndian(a: nat, b: nat, c: nat, d: nat)
    requires a < 256 && b < 256 && c < 256 && d < 256
    ensures var n := a + 256 * b + 65536 * c + 16777216 * d;
            IpOf(n) == Dotted(a, b, c, d) && n < 4294967296
  {
    hide Octet, Dotted;
    var n := a + 256 * b + 65536 * c + 16777216 * d;
    var n1, n2 := b + 256 * c + 65536 * d, c + 256 * d;
    assert n == a + 256 * n1 && n1 == b + 256 * n2;
    OctetOfSum(a, n1, 0);
    OctetOfSum(a, n1, 1);
    OctetOfSum(a, n1, 2);
    OctetOfSum(a, n1, 3);
    OctetOfSum(b, n2, 0);
    OctetOfSum(b, n2, 1);
    OctetOfSum(b, n2, 2);
    OctetOfSum(c, d, 0);
    OctetOfSum(c, d, 1);
    OctetOfSum(d, 0, 0);
  }

  lemma ParseIs(ip: string, port: string)
    requires IsHex(ip) && IsHex(port)
    ensures ParseHexAddr(ip + ":" + port) == Some((IpOf(HexVal(ip)), HexVal(port)))
  {
    HexHasNoColon(ip);
    HexHasNoColon(port);
    ColonCuts(ip, port);
    hide HexVal, HexDigit, IpOf, IsHex;
  }

  lemma PrintIs(x: Addr)
    requires x.Valid()
    ensures x.Print() == HexWords(x.high) + HexPrint(x.Number(), 8) + ":" + HexPrint(x.port, 4)
    ensures forall i :: 0 <= i < |HexWords(x.high)| ==> HexDigit(HexWords(x.high)[i]) < 16
  {
    hide HexPrint, HexDigit;
  }

  lemma NumberRoundTrip(x: Addr)
    requires x.Valid()
    ensures var low, port := HexPrint(x.Number(), 8), HexPrint(x.port, 4);
            HexVal(low) == x.Number() && IpOf(x.Number()) == x.Shown() && IsHex(low) && |low| == 8
            && HexVal(port) == x.port && IsHex(port)
  {
    LittleEndian(x.a, x.b, x.c, x.d);
    Pow16Eight();
    hide Pow16, HexVal, HexPrint, IpOf, Dotted;
    HexPrintRead(x.Number(), 8);
    HexPrintRead(x.port, 4);
  }

  /** Reading a printed address gives the last four of its octets and the port: for IPv4 all there is. */
  lemma AddrRoundTrip(x: Addr)
    requires x.Valid()
    ensures ParseHexAddr(x.Print()) == Some((x.Shown(), x.port))
  {
    hide *;
    PrintIs(x);
    NumberRoundTrip(x);
    LastEightDigits(HexWords(x.high), HexPrint(x.Number(), 8), HexPrint(x.port, 4));
    ParseIs(HexPrint(x.Number(), 8), HexPrint(x.port, 4));
  }

  // ---- tables ----

  datatype Conn = Conn(localIp: string, localPort: nat, remoteIp: string, remotePort: nat)

  datatype Line = Skip | Bad | Connected(conn: Conn) | Listening(port: nat)

  datatype Table = Table(conns: seq<Conn>, listen: set<nat>)

  function ParseLine(line: string, timeWait: bool): Line {
    var parts := Words(line);
    if |parts| < 4 then Skip
    else if !IsHex(parts[3]) then Bad
    else
      var state := HexVal(parts[3]);
      if state == 1 || (state == 6 && timeWait) then
        match (ParseHexAddr(parts[1]), ParseHexAddr(parts[2]))
        case (Some(l), Some(r)) => Connected(Conn(l.0, l.1, r.0, r.1))
        case _ => Bad
      else if state == 10 then
        match ParseHexAddr(parts[1])
        case Some(l) => Listening(l.1)
        case None => Bad
      else Skip
  }

  function AddLine(t: Option<Table>, line: Line): Option<Table> {
    if t.None? then None
    else match line
         case Skip => t
         case Bad => None
         case Connected(c) => Some(t.value.(conns := t.value.conns + [c]))
         case Listening(port) => Some(t.value.(listen := t.value.listen + {port}))
  }

  const EMPTY := Table([], {})

  function ParseLines(lines: seq<string>, timeWait: bool): Option<Table> {
    if lines == [] then Some(EMPTY)
    else AddLine(ParseLines(lines[..|lines| - 1], timeWait), ParseLine(lines[|lines| - 1], timeWait))
  }

  predicate IsEol(c: char) {
    c == '\n' || c == '\r'
  }

  function EolAt(s: string): (i: nat)
    ensures i <= |s| && (i < |s| ==> IsEol(s[i]))
    ensures forall j :: 0 <= j < i ==> !IsEol(s[j])
  {
    if s == "" || IsEol(s[0]) then 0 else 1 + EolAt(s[1..])
  }

  /** Iterating over a text file. A "\r\n" yields one more empty line here, which the parser skips. */
  function FileLines(s: string): seq<string>
    decreases |s|
  {
    if s == "" then []
    else
      var i := EolAt(s);
      if i == |s| then [s] else [s[..i]] + FileLines(s[i + 1..])
  }

  /** What one table file yields: an unreadable or empty one nothing, a malformed line a ValueError. */
  function Parsed(file: Option<string>, timeWait: bool): Option<Table> {
    if file.None? || FileLines(file.value) == [] then Some(EMPTY) else ParseLines(FileLines(file.value)[1..], timeWait)
  }

  lemma {:induction false} BadStaysBad(lines: seq<string>, n: nat, timeWait: bool)
    requires n <= |lines| && ParseLines(lines[..n], timeWait).None?
    ensures ParseLines(lines, timeWait).None?
  {
    if n < |lines| {
      assert lines[..|lines| - 1][..n] == lines[..n];
      BadStaysBad(lines[..|lines| - 1], n, timeWait);
    } else {
      assert lines[..n] == lines;
    }
  }

  method ParseProcNetTcp(file: Option<string>, timeWait: bool) returns (r: Option<Table>)
    ensures r == Parsed(file, timeWait)
  {
    var conns, listen := [], {};
    if file.None? {
      return Some(Table(conns, listen));
    }
    var all := FileLines(file.value);
    if all == [] {
      return Some(Table(conns, listen));
    }
    var lines := all[1..];
    hide FileLines, ParseLine;
    for n := 0 to |lines|
      invariant Some(Table(conns, listen)) == ParseLines(lines[..n], timeWait)
    {
      assert lines[..n + 1][..n] == lines[..n];
      match ParseLine(lines[n], timeWait) {
        case Skip =>
        case Bad =>
          BadStaysBad(lines, n + 1, timeWait);
          return None;
        case Connected(c) => conns := conns + [c];
        case Listening(port) => listen := listen + {port};
      }
    }
    assert lines[..|lines|] == lines;
    r := Some(Table(conns, listen));
  }

  // ---- malformed tables ----

  ghost predicate AddressText(s: string) {
    exists ip, port :: s == ip + ":" + port && IsHex(ip) && IsHex(port)
  }

  /** An address is read exactly when it is two hexadecimal numbers with a colon between them. */
  lemma AddressReadIff(s: string)
    ensures ParseHexAddr(s).Some? <==> AddressText(s)
  {
    hide IsHex, IpOf, HexVal;
    if ParseHexAddr(s).Some? {
      var i := IndexOf(s, ':');
      assert s == s[..i] + ":" + s[i + 1..];
    }
    if ip, port :| s == ip + ":" + port && IsHex(ip) && IsHex(port) {
      ParseIs(ip, port);
    }
  }

  /** A line is malformed exactly when it has four words or more, and its fourth is no hexadecimal number, or is a
      wanted state and one of its addresses is none, or is that of a listening socket and its own address is none. */
  lemma MalformedIff(line: string, timeWait: bool)
    ensures var parts := Words(line);
            ParseLine(line, timeWait) == Bad
            <==> |parts| >= 4
                 && (!IsHex(parts[3])
                     || ((HexVal(parts[3]) == 1 || (HexVal(parts[3]) == 6 && timeWait))
                         && !(AddressText(parts[1]) && AddressText(parts[2])))
                     || (HexVal(parts[3]) == 10 && !AddressText(parts[1])))
  {
    var parts := Words(line);
    if |parts| >= 4 {
      AddressReadIff(parts[1]);
      AddressReadIff(parts[2]);
    }
    hide Words, IsHex, HexVal, ParseHexAddr, AddressText;
  }

  /** Reading a table fails exactly when a line after the header is malformed; a file that cannot be read, or has no
      header, yields nothing. */
  lemma TableFailsIff(text: string, timeWait: bool)
    ensures Parsed(None, timeWait) == Some(Table([], {})) && Parsed(Some(""), timeWait) == Some(Table([], {}))
    ensures Parsed(Some(text), timeWait).None?
       <==> exists i :: 1 <= i < |FileLines(text)| && ParseLine(FileLines(text)[i], timeWait) == Bad
  {
    var lines := FileLines(text);
    assert FileLines("") == [];
    hide FileLines, ParseLine;
    if lines != [] {
      LinesFailIff(lines[1..], timeWait);
      if i :| 1 <= i < |lines| && ParseLine(lines[i], timeWait) == Bad {
        assert lines[1..][i - 1] == lines[i];
      }
      if i :| 0 <= i < |lines[1..]| && ParseLine(lines[1..][i], timeWait) == Bad {
        assert lines[i + 1] == lines[1..][i];
      }
    }
  }

  lemma {:induction false} LinesFailIff(lines: seq<string>, timeWait: bool)
    ensures ParseLines(lines, timeWait).None?
       <==> exists i :: 0 <= i < |lines| && ParseLine(lines[i], timeWait) == Bad
  {
    hide ParseLine;
    if lines != [] {
      var n := |lines| - 1;
      LinesFailIff(lines[..n], timeWait);
      if i :| 0 <= i < |lines[..n]| && ParseLine(lines[..n][i], timeWait) == Bad {
        assert lines[i] == lines[..n][i];
      }
    }
  }

  // ---- the kernel's tables ----

  /** A socket, the padding and number in front of it and the columns after its state. */
  datatype Sock = Sock(pad: nat, slot: string, local: Addr, remote: Addr, state: nat, tail: string) {
    predicate Valid() {
      local.Valid() && remote.Valid() && state < 256 && Word(slot) && (forall i :: 0 <= i < |slot| ==> !IsEol(slot[i]))
      && (forall i :: 0 <= i < |tail| ==> !IsEol(tail[i]))
    }

    function Print(): string {
      Padded(pad, slot + " " + (local.Print() + " " + (remote.Print() + " " + (HexPrint(state, 2) + " " + tail))))
    }

    /** What the parser makes of its two ends. */
    function Ends(): Conn {
      Conn(local.Shown(), local.port, remote.Shown(), remote.port)
    }
  }

  function Padded(n: nat, s: string): string {
    if n == 0 then s else " " + Padded(n - 1, s)
  }

  predicate Wanted(state: nat, timeWait: bool) {
    state == 1 || (state == 6 && timeWait)
  }

  lemma {:induction false} PadIsNoWord(n: nat, s: string)
    ensures Words(Padded(n, s)) == Words(s)
  {
    if n > 0 {
      PadIsNoWord(n - 1, s);
      assert (" " + Padded(n - 1, s))[1..] == Padded(n - 1, s);
    }
  }

  predicate HexOrColon(s: string) {
    forall i :: 0 <= i < |s| ==> s[i] == ':' || HexDigit(s[i]) < 16
  }

  lemma HexIsWord(s: string)
    requires s != "" && HexOrColon(s)
    ensures Word(s) && forall i :: 0 <= i < |s| ==> !IsEol(s[i])
  {
  }

  lemma AddrIsWord(x: Addr)
    requires x.Valid()
    ensures x.Print() != "" && HexOrColon(x.Print())
  {
  }

  /** Reading a printed socket gives its two ends, its port or nothing, by its state. */
  lemma SockRoundTrip(x: Sock, timeWait: bool)
    requires x.Valid()
    ensures ParseLine(x.Print(), timeWait)
         == if Wanted(x.state, timeWait) then Connected(x.Ends())
            else if x.state == 10 then Listening(x.local.port) else Skip
  {
    SockWords(x);
    AddrRoundTrip(x.local);
    AddrRoundTrip(x.remote);
    assert Pow16(2) == 256;
    HexPrintRead(x.state, 2);
    assert IsHex(HexPrint(x.state, 2));
    hide Words, HexVal, HexPrint, HexDigit, IsHex, ParseHexAddr, Addr.Print, Addr.Shown, Sock.Print;
  }

  lemma SockWords(x: Sock)
    requires x.Valid()
    ensures var parts := Words(x.Print());
            |parts| >= 4 && parts[1] == x.local.Print() && parts[2] == x.remote.Print()
            && parts[3] == HexPrint(x.state, 2)
  {
    AddrIsWord(x.local);
    AddrIsWord(x.remote);
    HexIsWord(x.local.Print());
    HexIsWord(x.remote.Print());
    HexIsWord(HexPrint(x.state, 2));
    hide HexPrint, Word, Words, Addr.Print, HexOrColon;
    var s3 := HexPrint(x.state, 2) + " " + x.tail;
    var s2 := x.remote.Print() + " " + s3;
    var s1 := x.local.Print() + " " + s2;
    PadIsNoWord(x.pad, x.slot + " " + s1);
    WordsCons(x.slot, s1);
    WordsCons(x.local.Print(), s2);
    WordsCons(x.remote.Print(), s3);
    WordsCons(HexPrint(x.state, 2), x.tail);
  }

  predicate NoEol(s: string) {
    forall i :: 0 <= i < |s| ==> !IsEol(s[i])
  }

  lemma NoEolConcat(a: string, b: string)
    requires NoEol(a) && NoEol(b)
    ensures NoEol(a + b)
  {
  }

  lemma {:induction false} PaddedNoEol(n: nat, s: string)
    requires NoEol(s)
    ensures NoEol(Padded(n, s))
  {
    if n > 0 {
      PaddedNoEol(n - 1, s);
    }
  }

  lemma SockIsLine(x: Sock)
    requires x.Valid()
    ensures NoEol(x.Print())
  {
    PartsAreLines(x);
    hide NoEol, Addr.Print, HexPrint, Sock.Valid;
    var s3 := HexPrint(x.state, 2) + " " + x.tail;
    var s2 := x.remote.Print() + " " + s3;
    var s1 := x.local.Print() + " " + s2;
    Spaced(HexPrint(x.state, 2), x.tail);
    Spaced(x.remote.Print(), s3);
    Spaced(x.local.Print(), s2);
    Spaced(x.slot, s1);
    PaddedNoEol(x.pad, x.slot + " " + s1);
  }

  lemma PartsAreLines(x: Sock)
    requires x.Valid()
    ensures NoEol(HexPrint(x.state, 2)) && NoEol(x.local.Print()) && NoEol(x.remote.Print()) && NoEol(x.slot)
            && NoEol(x.tail)
  {
    AddrIsWord(x.local);
    AddrIsWord(x.remote);
    HexIsWord(x.local.Print());
    HexIsWord(x.remote.Print());
    HexIsWord(HexPrint(x.state, 2));
  }

  lemma Spaced(a: string, b: string)
    requires NoEol(a) && NoEol(b)
    ensures NoEol(a + " " + b)
  {
    assert NoEol(" ");
    NoEolConcat(a, " ");
    NoEolConcat(a + " ", b);
  }

  /** A header line and a line a socket. */
  function PrintTable(header: string, socks: seq<Sock>): string {
    Terminated([header] + seq(|socks|, k requires 0 <= k < |socks| => socks[k].Print()))
  }

  lemma EolAtUnique(s: string, i: nat)
    requires i < |s| && IsEol(s[i]) && forall j :: 0 <= j < i ==> !IsEol(s[j])
    ensures EolAt(s) == i
  {
  }

  /** A line of a text file ends at a line feed or a carriage return. */
  lemma FileLineEnds(a: string, c: char, b: string)
    requires NoEol(a) && (c == '\n' || c == '\r')
    ensures FileLines(a + [c] + b) == [a] + FileLines(b)
  {
    var s := a + [c] + b;
    assert s[|a|] == c && IsEol(c);
    assert s[..|a|] == a && s[|a| + 1..] == b;
    hide IsEol;
    EolAtUnique(s, |a|);
  }

  lemma {:induction false} FileLinesTerminated(lines: seq<string>)
    requires forall k :: 0 <= k < |lines| ==> NoEol(lines[k])
    ensures FileLines(Terminated(lines)) == lines
  {
    if lines != [] {
      var line, rest := lines[0], Terminated(lines[1..]);
      FileLinesTerminated(lines[1..]);
      var s := line + "\n" + rest;
      EolAtUnique(s, |line|);
      assert s[..|line|] == line && s[|line| + 1..] == rest;
    }
  }

  /** What the kernel's sockets say: the ends of the wanted ones in order, and the listening ports. */
  function TableOf(socks: seq<Sock>, timeWait: bool): Table
    requires forall k :: 0 <= k < |socks| ==> socks[k].Valid()
  {
    if socks == [] then EMPTY
    else
      var t, x := TableOf(socks[..|socks| - 1], timeWait), socks[|socks| - 1];
      if Wanted(x.state, timeWait) then t.(conns := t.conns + [x.Ends()])
      else if x.state == 10 then t.(listen := t.listen + {x.local.port})
      else t
  }

  lemma {:induction false} LinesRoundTrip(socks: seq<Sock>, lines: seq<string>, timeWait: bool)
    requires forall k :: 0 <= k < |socks| ==> socks[k].Valid()
    requires |lines| == |socks| && forall k :: 0 <= k < |socks| ==> lines[k] == socks[k].Print()
    ensures ParseLines(lines, timeWait) == Some(TableOf(socks, timeWait))
  {
    hide Sock.Print, ParseLine, Sock.Valid, Sock.Ends;
    if socks != [] {
      LinesRoundTrip(socks[..|socks| - 1], lines[..|lines| - 1], timeWait);
      SockRoundTrip(socks[|socks| - 1], timeWait);
    }
  }

  /** Reading a printed table gives exactly what its sockets say. */
  lemma TableRoundTrip(header: string, socks: seq<Sock>, timeWait: bool)
    requires NoEol(header) && forall k :: 0 <= k < |socks| ==> socks[k].Valid()
    ensures Parsed(Some(PrintTable(header, socks)), timeWait) == Some(TableOf(socks, timeWait))
  {
    var lines := seq(|socks|, k requires 0 <= k < |socks| => socks[k].Print());
    forall k | 0 <= k < |socks| ensures NoEol(lines[k]) {
      SockIsLine(socks[k]);
    }
    hide Sock.Print, Sock.Valid, NoEol, FileLines, Terminated, ParseLines, TableOf;
    FileLinesTerminated([header] + lines);
    assert ([header] + lines)[1..] == lines;
    LinesRoundTrip(socks, lines, timeWait);
  }

  /** Some wanted socket has these ends. */
  ghost predicate HasEnds(socks: seq<Sock>, timeWait: bool, c: Conn) {
    exists x :: x in socks && x.Valid() && Wanted(x.state, timeWait) && x.Ends() == c
  }

  ghost predicate ListensOn(socks: seq<Sock>, port: nat) {
    exists x :: x in socks && x.state == 10 && x.local.port == port
  }

  lemma HasEndsStep(before: seq<Sock>, last: Sock, timeWait: bool, c: Conn)
    requires last.Valid()
    ensures HasEnds(before + [last], timeWait, c)
            <==> HasEnds(before, timeWait, c) || (Wanted(last.state, timeWait) && last.Ends() == c)
  {
    hide Sock.Ends, Sock.Valid;
    assert last in before + [last] && forall x :: x in before ==> x in before + [last];
  }

  lemma ListensOnStep(before: seq<Sock>, last: Sock, port: nat)
    ensures ListensOn(before + [last], port)
            <==> ListensOn(before, port) || (last.state == 10 && last.local.port == port)
  {
    assert last in before + [last] && forall x :: x in before ==> x in before + [last];
  }

  /** Membership in what the sockets say. */
  lemma {:induction false} TableHolds(socks: seq<Sock>, timeWait: bool)
    requires forall k :: 0 <= k < |socks| ==> socks[k].Valid()
    ensures forall c :: c in TableOf(socks, timeWait).conns <==> HasEnds(socks, timeWait, c)
    ensures forall p: nat :: p in TableOf(socks, timeWait).listen <==> ListensOn(socks, p)
  {
    hide Sock.Ends, Sock.Valid;
    if socks != [] {
      var before, last := socks[..|socks| - 1], socks[|socks| - 1];
      TableHolds(before, timeWait);
      assert socks == before + [last];
      hide HasEnds, ListensOn;
      forall c
        ensures HasEnds(socks, timeWait, c)
            <==> HasEnds(before, timeWait, c) || (Wanted(last.state, timeWait) && last.Ends() == c)
      {
        HasEndsStep(before, last, timeWait, c);
      }
      forall p: nat
        ensures ListensOn(socks, p) <==> ListensOn(before, p) || (last.state == 10 && last.local.port == p)
      {
        ListensOnStep(before, last, p);
      }
    }
  }

  lemma HasEndsConcat(v4: seq<Sock>, v6: seq<Sock>, timeWait: bool, c: Conn)
    ensures HasEnds(v4 + v6, timeWait, c) <==> HasEnds(v4, timeWait, c) || HasEnds(v6, timeWait, c)
  {
    hide Sock.Ends, Sock.Valid;
    assert forall x :: x in v4 + v6 <==> x in v4 || x in v6;
  }

  lemma ListensOnConcat(v4: seq<Sock>, v6: seq<Sock>, port: nat)
    ensures ListensOn(v4 + v6, port) <==> ListensOn(v4, port) || ListensOn(v6, port)
  {
    assert forall x :: x in v4 + v6 <==> x in v4 || x in v6;
  }
}
