/** The connection list against the peers themselves. The parser keeps the last four octets of an address
    only, so for IPv6 the list is exact under conditions, which are stated here. */
module Peers {
  import opened Text
  import opened Sets
  import opened ProcNetTcp
  import opened Connections

  lemma DecimalInjective(x: nat, y: nat)
    requires Decimal(x) == Decimal(y)
    ensures x == y
  {
    NumberDecimal(x);
    NumberDecimal(y);
  }

  lemma DecimalHasNoDot(n: nat)
    ensures '.' !in Decimal(n)
  {
    hide Decimal;
    NumberDecimal(n);
  }

  lemma DotCuts(a: nat, rest: string)
    ensures var s := Decimal(a) + "." + rest;
            IndexOf(s, '.') == |Decimal(a)| && s[..|Decimal(a)|] == Decimal(a) && s[|Decimal(a)| + 1..] == rest
  {
    DecimalHasNoDot(a);
    hide Decimal;
    IndexOfUnique(Decimal(a) + "." + rest, '.', |Decimal(a)|);
  }

  lemma SameHead(a: nat, x: nat, rest: string, other: string)
    requires Decimal(a) + "." + rest == Decimal(x) + "." + other
    ensures a == x && rest == other
  {
    DotCuts(a, rest);
    DotCuts(x, other);
    DecimalInjective(a, x);
  }

  lemma SomeDecimals()
    ensures Decimal(127) == "127" && Decimal(0) == "0"
  {
    assert Decimal(12) == "12";
  }

  lemma StartsWithIff(a: nat, x: nat, rest: string)
    ensures Decimal(x) + "." <= Decimal(a) + "." + rest <==> a == x
  {
    hide Decimal;
    var s, head := Decimal(a) + "." + rest, Decimal(x) + ".";
    if head <= s {
      assert s == Decimal(x) + "." + s[|head|..];
      SameHead(a, x, rest, s[|head|..]);
    }
  }

  lemma ZeroIff(a: nat, rest: string, other: string)
    ensures Decimal(a) + "." + rest == "0." + other <==> a == 0 && rest == other
  {
    SomeDecimals();
    hide Decimal;
    assert Decimal(0) + "." + other == "0." + other;
    if Decimal(a) + "." + rest == Decimal(0) + "." + other {
      SameHead(a, 0, rest, other);
    }
  }

  lemma DottedIs(a: nat, b: nat, c: nat, d: nat)
    ensures Dotted(a, b, c, d) == Decimal(a) + "." + (Decimal(b) + "." + (Decimal(c) + "." + Decimal(d)))
  {
    hide Decimal;
  }

  lemma ZerosAre()
    ensures "0.0.0.0" == "0." + ("0." + ("0." + "0")) && "127." == "127" + "."
  {
  }

  /** The program's test for local addresses is about octets: 127.0.0.0/8 or all zeros. */
  lemma LocalIff(a: nat, b: nat, c: nat, d: nat)
    ensures Local(Dotted(a, b, c, d)) <==> a == 127 || (a == 0 && b == 0 && c == 0 && d == 0)
  {
    SomeDecimals();
    ZerosAre();
    hide Decimal, Dotted;
    DottedIs(a, b, c, d);
    var r2 := Decimal(c) + "." + Decimal(d);
    var r1 := Decimal(b) + "." + r2;
    StartsWithIff(a, 127, r1);
    ZeroIff(a, r1, "0." + ("0." + "0"));
    ZeroIff(b, r2, "0." + "0");
    ZeroIff(c, Decimal(d), "0");
    if Decimal(d) == Decimal(0) {
      DecimalInjective(d, 0);
    }
  }

  /** Only equal octets print equally. */
  lemma DottedInjective(x: Addr, y: Addr)
    ensures x.Shown() == y.Shown() <==> SameLow(x, y)
  {
    hide Decimal, Dotted;
    DottedIs(x.a, x.b, x.c, x.d);
    DottedIs(y.a, y.b, y.c, y.d);
    var x2, y2 := Decimal(x.c) + "." + Decimal(x.d), Decimal(y.c) + "." + Decimal(y.d);
    var x1, y1 := Decimal(x.b) + "." + x2, Decimal(y.b) + "." + y2;
    if x.Shown() == y.Shown() {
      SameHead(x.a, y.a, x1, y1);
      SameHead(x.b, y.b, x2, y2);
      SameHead(x.c, y.c, Decimal(x.d), Decimal(y.d));
      DecimalInjective(x.d, y.d);
    }
  }

  predicate SameLow(x: Addr, y: Addr) {
    x.a == y.a && x.b == y.b && x.c == y.c && x.d == y.d
  }

  // ---- addresses of the host itself ----

  /** The word 0000:FFFF as a little-endian number. */
  const FFFF := 4294901760

  /** An IPv4 address, or one mapped into IPv6. */
  predicate FourOctets(x: Addr) {
    x.high == [] || x.high == [0, 0, FFFF]
  }

  /** :: and ::1 */
  predicate SixUnspecified(x: Addr) {
    x.high == [0, 0, 0] && x.Number() == 0
  }

  predicate SixLoopback(x: Addr) {
    x.high == [0, 0, 0] && x.a == 0 && x.b == 0 && x.c == 0 && x.d == 1
  }

  /** Loopback or unspecified: 127.0.0.0/8, 0.0.0.0, ::1 and ::. */
  predicate OwnHost(x: Addr) {
    (FourOctets(x) && (x.a == 127 || x.Number() == 0)) || SixLoopback(x) || SixUnspecified(x)
  }

  lemma LocalMeans(x: Addr)
    ensures Local(x.Shown()) <==> x.a == 127 || x.Number() == 0
  {
    LocalIff(x.a, x.b, x.c, x.d);
    hide Local, Dotted;
  }

  /** The scan takes an address of the host itself for a remote one exactly at ::1. */
  lemma ListedOwnHostIff(x: Addr)
    requires x.Valid()
    ensures OwnHost(x) && !Local(x.Shown()) <==> SixLoopback(x)
  {
    LocalMeans(x);
    hide Local;
  }

  /** An IPv6 address, other than ::, that ends like a local IPv4 one. */
  predicate EndsLocal(x: Addr) {
    !FourOctets(x) && !SixUnspecified(x) && (x.a == 127 || x.Number() == 0)
  }

  /** The scan drops a remote address exactly when it is an IPv6 one that ends like a local IPv4 one. */
  lemma DroppedRemoteIff(x: Addr)
    requires x.Valid()
    ensures !OwnHost(x) && Local(x.Shown()) <==> EndsLocal(x)
  {
    LocalMeans(x);
    hide Local;
  }

  /** The program's test is right about an address exactly when it is neither ::1 nor such an address. */
  lemma LocalIsOwnHostIff(x: Addr)
    requires x.Valid()
    ensures (Local(x.Shown()) <==> OwnHost(x)) <==> !SixLoopback(x) && !EndsLocal(x)
  {
    ListedOwnHostIff(x);
    DroppedRemoteIff(x);
    hide OwnHost, SixLoopback, EndsLocal;
  }

  lemma OneDotted()
    ensures Dotted(0, 0, 0, 1) == "0.0.0.1"
  {
    assert Decimal(0) == "0" && Decimal(1) == "1";
  }

  /** IPv6 loopback, as the kernel prints it with port 5432, is read as a remote address. */
  lemma SixLoopbackRead()
    ensures var x := Addr([0, 0, 0], 0, 0, 0, 1, 5432);
            OwnHost(x) && ParseHexAddr(x.Print()) == Some(("0.0.0.1", 5432)) && !Local("0.0.0.1")
  {
    var x := Addr([0, 0, 0], 0, 0, 0, 1, 5432);
    OneDotted();
    hide ParseHexAddr, Addr.Print, Dotted, Local;
    AddrRoundTrip(x);
    ListedOwnHostIff(x);
  }

  /** 2001:db8::7f00:1, a remote IPv6 address whose thirteenth octet is 127, is read as a local address. */
  lemma SixRemoteDropped()
    ensures var x := Addr([3087860000, 0, 0], 127, 0, 0, 1, 443);
            x.Valid() && !OwnHost(x) && ParseHexAddr(x.Print()) == Some((x.Shown(), 443)) && Local(x.Shown())
  {
    var x := Addr([3087860000, 0, 0], 127, 0, 0, 1, 443);
    AddrRoundTrip(x);
    DroppedRemoteIff(x);
    hide ParseHexAddr, Addr.Print;
  }

  /** Addresses that differ in front of the last word only are read alike. */
  lemma HighIsLost(x: Addr, high: seq<nat>)
    requires x.Valid() && x.(high := high).Valid()
    ensures ParseHexAddr(x.Print()) == ParseHexAddr(x.(high := high).Print())
  {
    AddrRoundTrip(x);
    AddrRoundTrip(x.(high := high));
    hide ParseHexAddr, Addr.Print;
  }

  // ---- the list and the peers ----

  /** The peer behind an address: a mapped address is its IPv4 one. */
  function Peer(x: Addr): Addr {
    x.(high := if FourOctets(x) then [] else x.high)
  }

  lemma PeerIsSame(x: Addr)
    ensures Peer(x).Shown() == x.Shown() && Peer(x).port == x.port && (OwnHost(Peer(x)) <==> OwnHost(x))
  {
  }

  /** One remote end: which container, which peer and port, which direction. */
  datatype End = End(container: string, peer: Addr, direction: string)

  ghost function Direction(socks: seq<Sock>, port: nat): string {
    if ListensOn(socks, port) then "inbound" else "outbound"
  }

  ghost function EndOf(c: Container, s: Sock): End {
    End(c.name, Peer(s.remote), Direction(c.v4 + c.v6, s.local.port))
  }

  /** The ends of the wanted sockets of all containers that keep lets through. */
  ghost function Ends(containers: seq<Container>, keep: Addr -> bool): set<End> {
    set c, s | c in containers && s in c.v4 + c.v6 && Wanted(s.state, true) && keep(s.remote) :: EndOf(c, s)
  }

  function NotLocal(): Addr -> bool {
    (x: Addr) => !Local(x.Shown())
  }

  function NotOwnHost(): Addr -> bool {
    (x: Addr) => !OwnHost(x)
  }

  function Entry(e: End): Connection {
    Connection(e.container, "tcp", e.peer.Shown(), e.peer.port, e.direction)
  }

  ghost predicate SomeEnd(x: Connection, containers: seq<Container>) {
    exists e :: e in Ends(containers, NotLocal()) && Entry(e) == x
  }

  /** s is a wanted, non-local socket of c, and x its entry. */
  ghost predicate Yields(x: Connection, c: Container, s: Sock) {
    s in c.v4 + c.v6 && Wanted(s.state, true) && !Local(s.remote.Shown()) && Entry(EndOf(c, s)) == x
  }

  lemma EntryIs(c: Container, s: Sock)
    ensures Entry(EndOf(c, s))
         == Connection(c.name, "tcp", s.remote.Shown(), s.remote.port, Direction(c.v4 + c.v6, s.local.port))
  {
    PeerIsSame(s.remote);
    hide Addr.Shown, FourOctets, OwnHost;
  }

  lemma SocketsYield(x: Connection, c: Container)
    requires forall s :: s in c.v4 + c.v6 ==> s.Valid()
    ensures FromSockets(x, c.name, c.v4 + c.v6) <==> exists s :: Yields(x, c, s)
  {
    hide Sock.Valid, Local, EndOf, Entry, Addr.Shown, ListensOn;
    var socks := c.v4 + c.v6;
    if FromSockets(x, c.name, socks) {
      var k :| HasEnds(socks, true, k) && !Local(k.remoteIp) && x == Connection(c.name, "tcp", k.remoteIp, k.remotePort,
                 if ListensOn(socks, k.localPort) then "inbound" else "outbound");
      var s :| s in socks && s.Valid() && Wanted(s.state, true) && s.Ends() == k;
      EntryIs(c, s);
      assert Yields(x, c, s);
    }
    if s :| Yields(x, c, s) {
      EntryIs(c, s);
      assert HasEnds(socks, true, s.Ends());
    }
  }

  lemma ContainersYield(x: Connection, containers: seq<Container>)
    ensures SomeEnd(x, containers) <==> exists c, s :: c in containers && Yields(x, c, s)
  {
    hide Local, EndOf, Entry, Addr.Shown;
    if SomeEnd(x, containers) {
      var e :| e in Ends(containers, NotLocal()) && Entry(e) == x;
      var c, s :| c in containers && s in c.v4 + c.v6 && Wanted(s.state, true) && NotLocal()(s.remote)
                  && EndOf(c, s) == e;
      assert Yields(x, c, s);
    }
    if c, s :| c in containers && Yields(x, c, s) {
      assert EndOf(c, s) in Ends(containers, NotLocal());
    }
  }

  ghost predicate AllShown(containers: seq<Container>, read: (nat, bool) -> Option<string>) {
    forall i :: 0 <= i < |containers| ==> containers[i].Shown(read)
  }

  lemma ShownIsValid(c: Container, read: (nat, bool) -> Option<string>)
    requires c.Shown(read)
    ensures forall s :: s in c.v4 + c.v6 ==> s.Valid()
  {
    hide Sock.Valid, PrintTable, NoEol;
  }

  /** The list holds exactly the entries of the ends whose shown address is not local. */
  lemma ListIsEntries(containers: seq<Container>, read: (nat, bool) -> Option<string>)
    requires AllShown(containers, read)
    ensures var r := Scanned(Pids(containers), read);
            r.Some? && NoRepeats(r.value) && Elements(r.value) == Image(Ends(containers, NotLocal()), Entry)
  {
    hide Scanned, Pids, Ends, FromSockets, Yields, Container.Shown;
    var r := Scanned(Pids(containers), read);
    ConnectionsOfSockets(containers, read, Connection("", "", "", 0, ""));
    forall c | c in containers ensures forall s :: s in c.v4 + c.v6 ==> s.Valid() {
      ShownIsValid(c, read);
    }
    forall x ensures x in Elements(r.value) <==> x in Image(Ends(containers, NotLocal()), Entry) {
      ConnectionsOfSockets(containers, read, x);
      ContainersYield(x, containers);
      forall c | c in containers ensures FromSockets(x, c.name, c.v4 + c.v6) <==> exists s :: Yields(x, c, s) {
        SocketsYield(x, c);
      }
    }
  }

  /** The two ends differ at most in front of their peers' last words. */
  predicate SameButHigh(e: End, f: End) {
    e.container == f.container && e.direction == f.direction && e.peer.port == f.peer.port && SameLow(e.peer, f.peer)
  }

  /** The list has an entry of its own for every listed end exactly when no two of them differ only in front
      of their peers' last words; for IPv4 and mapped addresses that is always so. */
  lemma ListSeparatesIff(containers: seq<Container>, read: (nat, bool) -> Option<string>)
    requires AllShown(containers, read)
    ensures var r, ends := Scanned(Pids(containers), read), Ends(containers, NotLocal());
            r.Some? && (|r.value| == |ends| <==> forall e, f :: e in ends && f in ends && SameButHigh(e, f) ==> e == f)
  {
    hide Scanned, Pids, Ends, AllShown, SameLow, Addr.Shown;
    ListIsEntries(containers, read);
    var r, ends := Scanned(Pids(containers), read), Ends(containers, NotLocal());
    DistinctSize(r.value);
    ImageSize(ends, Entry);
    forall e, f ensures Entry(e) == Entry(f) <==> SameButHigh(e, f) {
      DottedInjective(e.peer, f.peer);
    }
  }

  /** Ends of IPv4 and mapped peers are told apart by what is shown. */
  lemma FourOctetsSeparate(e: End, f: End)
    requires FourOctets(e.peer) && FourOctets(f.peer) && Peer(e.peer) == e.peer && Peer(f.peer) == f.peer
    requires SameButHigh(e, f)
    ensures e == f
  {
  }

  /** The listed ends are the ends of the peers that are not the host itself exactly when no wanted socket's
      remote address is ::1 or an IPv6 address that ends like a local IPv4 one. */
  lemma ListedArePeersIff(containers: seq<Container>)
    requires forall c, s :: c in containers && s in c.v4 + c.v6 ==> s.Valid()
    ensures Ends(containers, NotLocal()) == Ends(containers, NotOwnHost())
       <==> forall c, s :: c in containers && s in c.v4 + c.v6 && Wanted(s.state, true)
                           ==> !SixLoopback(s.remote) && !EndsLocal(s.remote)
  {
    var listed, peers := Ends(containers, NotLocal()), Ends(containers, NotOwnHost());
    hide Local, OwnHost, Addr.Shown, SixLoopback, EndsLocal, Sock.Valid;
    forall c, s | c in containers && s in c.v4 + c.v6 && Wanted(s.state, true)
      ensures EndOf(c, s) in listed <==> !Local(s.remote.Shown())
      ensures EndOf(c, s) in peers <==> !OwnHost(s.remote)
      ensures (Local(s.remote.Shown()) <==> OwnHost(s.remote)) <==> !SixLoopback(s.remote) && !EndsLocal(s.remote)
    {
      KeptByPeer(containers, c, s);
      assert s.remote.Valid() by { assert s.Valid(); ValidEnds(s); }
      LocalIsOwnHostIff(s.remote);
    }
    EndsAgreeIff(containers);
  }

  lemma ValidEnds(s: Sock)
    requires s.Valid()
    ensures s.remote.Valid()
  {
  }

  /** Both filters go by the peer, so an end is kept iff its own socket is. */
  lemma KeptByPeer(containers: seq<Container>, c: Container, s: Sock)
    requires c in containers && s in c.v4 + c.v6 && Wanted(s.state, true)
    ensures EndOf(c, s) in Ends(containers, NotLocal()) <==> !Local(s.remote.Shown())
    ensures EndOf(c, s) in Ends(containers, NotOwnHost()) <==> !OwnHost(s.remote)
  {
    hide Local, OwnHost, Addr.Shown, FourOctets;
    PeerIsSame(s.remote);
    if EndOf(c, s) in Ends(containers, NotLocal()) {
      var d, t :| d in containers && t in d.v4 + d.v6 && Wanted(t.state, true) && NotLocal()(t.remote)
                  && EndOf(d, t) == EndOf(c, s);
      PeerIsSame(t.remote);
    }
    if EndOf(c, s) in Ends(containers, NotOwnHost()) {
      var d, t :| d in containers && t in d.v4 + d.v6 && Wanted(t.state, true) && NotOwnHost()(t.remote)
                  && EndOf(d, t) == EndOf(c, s);
      PeerIsSame(t.remote);
    }
  }

  lemma EndsAgreeIff(containers: seq<Container>)
    requires forall c, s :: c in containers && s in c.v4 + c.v6 && Wanted(s.state, true) ==>
               (EndOf(c, s) in Ends(containers, NotLocal()) <==> !Local(s.remote.Shown()))
               && (EndOf(c, s) in Ends(containers, NotOwnHost()) <==> !OwnHost(s.remote))
    ensures Ends(containers, NotLocal()) == Ends(containers, NotOwnHost())
       <==> forall c, s :: c in containers && s in c.v4 + c.v6 && Wanted(s.state, true)
                           ==> (Local(s.remote.Shown()) <==> OwnHost(s.remote))
  {
    hide Local, OwnHost, Addr.Shown, EndOf;
  }

  /** A container connected to itself over IPv6 always shows up with the peer 0.0.0.1. */
  lemma SixLoopbackIsListed(containers: seq<Container>, read: (nat, bool) -> Option<string>, c: Container, s: Sock)
    requires AllShown(containers, read) && c in containers && s in c.v4 + c.v6
    requires Wanted(s.state, true) && SixLoopback(s.remote)
    ensures var r := Scanned(Pids(containers), read);
            r.Some?
            && exists x :: x in r.value && x.container == c.name && x.dstIp == "0.0.0.1" && x.dstPort == s.remote.port
  {
    hide Scanned, Pids, Local, Dotted, AllShown;
    ListIsEntries(containers, read);
    LocalMeans(s.remote);
    OneDotted();
    EntryIs(c, s);
    KeptByPeer(containers, c, s);
    hide Ends;
    var x := Entry(EndOf(c, s));
    assert x in Image(Ends(containers, NotLocal()), Entry);
    assert x in Elements(Scanned(Pids(containers), read).value);
  }
}
