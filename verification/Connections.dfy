/** The connection scan (agent.py): both tables of every running container merged, classified and
    deduplicated. */
module Connections {
  import opened Text
  import opened ProcNetTcp

  // ---- the scan ----

  datatype Connection = Connection(container: string, proto: string, dstIp: string, dstPort: nat, direction: string)

  /** An address of the machine itself. */
  predicate Local(ip: string) {
    "127." <= ip || ip == "0.0.0.0"
  }

  function Classify(name: string, c: Conn, listen: set<nat>): Connection {
    Connection(name, "tcp", c.remoteIp, c.remotePort, if c.localPort in listen then "inbound" else "outbound")
  }

  function AddConn(acc: seq<Connection>, name: string, c: Conn, listen: set<nat>): seq<Connection> {
    if Local(c.remoteIp) || Classify(name, c, listen) in acc then acc else acc + [Classify(name, c, listen)]
  }

  function AddConns(acc: seq<Connection>, name: string, conns: seq<Conn>, listen: set<nat>): seq<Connection> {
    if conns == [] then acc
    else AddConn(AddConns(acc, name, conns[..|conns| - 1], listen), name, conns[|conns| - 1], listen)
  }

  /** Both tables of a process; read tells what a table file holds, the flag chooses tcp6. */
  function Merged(pid: nat, read: (nat, bool) -> Option<string>): Option<Table> {
    match (Parsed(read(pid, false), true), Parsed(read(pid, true), true))
    case (Some(t), Some(t6)) => Some(Table(t.conns + t6.conns, t.listen + t6.listen))
    case _ => None
  }

  function Scanned(pids: seq<(string, nat)>, read: (nat, bool) -> Option<string>): Option<seq<Connection>> {
    if pids == [] then Some([])
    else
      var before, last := Scanned(pids[..|pids| - 1], read), pids[|pids| - 1];
      if before.None? || Merged(last.1, read).None? then None
      else
        var t := Merged(last.1, read).value;
        Some(AddConns(before.value, last.0, t.conns, t.listen))
  }

  predicate NoRepeats<T(==)>(s: seq<T>) {
    forall i, j :: 0 <= i < j < |s| ==> s[i] != s[j]
  }

  /** x is a non-local end of one of the connections. */
  ghost predicate From(x: Connection, name: string, conns: seq<Conn>, listen: set<nat>) {
    exists c :: c in conns && !Local(c.remoteIp) && x == Classify(name, c, listen)
  }

  lemma {:induction false} AddConnsExact(acc: seq<Connection>, name: string, conns: seq<Conn>, listen: set<nat>)
    requires NoRepeats(acc)
    ensures NoRepeats(AddConns(acc, name, conns, listen)) && acc <= AddConns(acc, name, conns, listen)
    ensures forall x :: x in AddConns(acc, name, conns, listen) <==> x in acc || From(x, name, conns, listen)
  {
    if conns != [] {
      var before, c := conns[..|conns| - 1], conns[|conns| - 1];
      AddConnsExact(acc, name, before, listen);
      assert conns == before + [c];
      hide Local, Classify;
      forall x
        ensures From(x, name, conns, listen)
            <==> From(x, name, before, listen) || (!Local(c.remoteIp) && x == Classify(name, c, listen))
      {
        if From(x, name, before, listen) {
          var d :| d in before && !Local(d.remoteIp) && x == Classify(name, d, listen);
          assert d in conns;
        }
      }
    }
  }

  ghost predicate Seen(x: Connection, pids: seq<(string, nat)>, read: (nat, bool) -> Option<string>) {
    exists i :: 0 <= i < |pids| && Merged(pids[i].1, read).Some?
                && From(x, pids[i].0, Merged(pids[i].1, read).value.conns, Merged(pids[i].1, read).value.listen)
  }

  /** The scan fails exactly when some container's table is malformed; otherwise it lists, once each, exactly
      the non-local ends of all containers' connections, inbound when the local port listens in either table. */
  lemma {:induction false} ScanExact(pids: seq<(string, nat)>, read: (nat, bool) -> Option<string>)
    ensures Scanned(pids, read).None? <==> exists i :: 0 <= i < |pids| && Merged(pids[i].1, read).None?
    ensures Scanned(pids, read).Some? ==>
              NoRepeats(Scanned(pids, read).value)
              && forall x :: x in Scanned(pids, read).value <==> Seen(x, pids, read)
  {
    if pids != [] {
      var before, last := pids[..|pids| - 1], pids[|pids| - 1];
      ScanExact(before, read);
      hide Merged, AddConns, From, NoRepeats;
      assert pids == before + [last];
      var t := Merged(last.1, read);
      if Scanned(before, read).Some? && t.Some? {
        AddConnsExact(Scanned(before, read).value, last.0, t.value.conns, t.value.listen);
        forall x
          ensures Seen(x, pids, read) <==> Seen(x, before, read) || From(x, last.0, t.value.conns, t.value.listen)
        {
          SeenStep(x, pids, read);
        }
      }
    }
  }

  lemma SeenStep(x: Connection, pids: seq<(string, nat)>, read: (nat, bool) -> Option<string>)
    requires pids != []
    ensures var last, t := pids[|pids| - 1], Merged(pids[|pids| - 1].1, read);
            Seen(x, pids, read) <==> Seen(x, pids[..|pids| - 1], read)
                                     || (t.Some? && From(x, last.0, t.value.conns, t.value.listen))
  {
    hide Merged, From;
    var before := pids[..|pids| - 1];
    if Seen(x, before, read) {
      var i :| 0 <= i < |before| && Merged(before[i].1, read).Some?
               && From(x, before[i].0, Merged(before[i].1, read).value.conns, Merged(before[i].1, read).value.listen);
      assert pids[i] == before[i];
    }
    if Seen(x, pids, read) {
      var i :| 0 <= i < |pids| && Merged(pids[i].1, read).Some?
               && From(x, pids[i].0, Merged(pids[i].1, read).value.conns, Merged(pids[i].1, read).value.listen);
      if i < |before| {
        assert pids[i] == before[i];
      }
    }
  }

  lemma {:induction false} FailsForGood(pids: seq<(string, nat)>, n: nat, read: (nat, bool) -> Option<string>)
    requires n <= |pids| && Scanned(pids[..n], read).None?
    ensures Scanned(pids, read).None?
  {
    if n < |pids| {
      assert pids[..|pids| - 1][..n] == pids[..n];
      FailsForGood(pids[..|pids| - 1], n, read);
    } else {
      assert pids[..n] == pids;
    }
  }

  lemma ScanStep(pids: seq<(string, nat)>, n: nat, read: (nat, bool) -> Option<string>, acc: seq<Connection>)
    requires n < |pids| && Scanned(pids[..n], read) == Some(acc)
    ensures var t4, t6 := Parsed(read(pids[n].1, false), true), Parsed(read(pids[n].1, true), true);
            if t4.None? || t6.None? then Scanned(pids, read).None?
            else Scanned(pids[..n + 1], read)
                 == Some(AddConns(acc, pids[n].0, t4.value.conns + t6.value.conns, t4.value.listen + t6.value.listen))
  {
    assert pids[..n + 1][..n] == pids[..n];
    hide Parsed, AddConns;
    if Merged(pids[n].1, read).None? {
      FailsForGood(pids, n + 1, read);
    }
  }

  lemma ScanStarts(pids: seq<(string, nat)>, read: (nat, bool) -> Option<string>)
    ensures Scanned(pids[..0], read) == Some([]) && pids[..|pids|] == pids
  {
  }

  /** _get_connections; None is the ValueError of a malformed table. */
  method GetConnections(pids: seq<(string, nat)>, read: (nat, bool) -> Option<string>)
    returns (r: Option<seq<Connection>>)
    ensures r == Scanned(pids, read)
  {
    hide *;
    var connections: seq<Connection>, seen: set<Connection> := [], {};
    ScanStarts(pids, read);
    for n := 0 to |pids|
      invariant Scanned(pids[..n], read) == Some(connections)
      invariant forall x :: x in seen <==> x in connections
    {
      ScanStep(pids, n, read, connections);
      var t := ParseProcNetTcp(read(pids[n].1, false), true);
      var t6 := ParseProcNetTcp(read(pids[n].1, true), true);
      if t.None? || t6.None? {
        return None;
      }
      connections, seen := AddContainer(connections, seen, pids[n].0, t.value.conns + t6.value.conns,
                                        t.value.listen + t6.value.listen);
    }
    r := Some(connections);
  }

  method AddContainer(acc: seq<Connection>, accSeen: set<Connection>, name: string, conns: seq<Conn>, listen: set<nat>)
    returns (connections: seq<Connection>, seen: set<Connection>)
    requires forall x :: x in accSeen <==> x in acc
    ensures connections == AddConns(acc, name, conns, listen)
    ensures forall x :: x in seen <==> x in connections
  {
    connections, seen := acc, accSeen;
    for n := 0 to |conns|
      invariant connections == AddConns(acc, name, conns[..n], listen)
      invariant forall x :: x in seen <==> x in connections
    {
      assert conns[..n + 1][..n] == conns[..n];
      if !Local(conns[n].remoteIp) {
        var x := Classify(name, conns[n], listen);
        hide Classify, Local;
        if x !in seen {
          seen := seen + {x};
          connections := connections + [x];
        }
      }
    }
    assert conns[..|conns|] == conns;
  }

  // ---- from sockets to connections ----

  /** x is the remote end of a wanted, non-local socket, inbound when some socket listens on its local port. */
  ghost predicate FromSockets(x: Connection, name: string, socks: seq<Sock>) {
    exists c :: HasEnds(socks, true, c) && !Local(c.remoteIp)
                && x == Connection(name, "tcp", c.remoteIp, c.remotePort,
                                   if ListensOn(socks, c.localPort) then "inbound" else "outbound")
  }

  /** What the two tables of a process hold is what its sockets say. */
  lemma MergedHolds(pid: nat, read: (nat, bool) -> Option<string>, header: string, v4: seq<Sock>, v6: seq<Sock>)
    requires NoEol(header) && (forall k :: 0 <= k < |v4| ==> v4[k].Valid())
             && (forall k :: 0 <= k < |v6| ==> v6[k].Valid())
    requires read(pid, false) == Some(PrintTable(header, v4)) && read(pid, true) == Some(PrintTable(header, v6))
    ensures Merged(pid, read).Some?
    ensures forall c :: c in Merged(pid, read).value.conns <==> HasEnds(v4 + v6, true, c)
    ensures forall p: nat :: p in Merged(pid, read).value.listen <==> ListensOn(v4 + v6, p)
  {
    hide Parsed, PrintTable, TableOf, HasEnds, ListensOn, Sock.Valid, NoEol;
    TableRoundTrip(header, v4, true);
    TableRoundTrip(header, v6, true);
    TableHolds(v4, true);
    TableHolds(v6, true);
    forall c ensures HasEnds(v4 + v6, true, c) <==> HasEnds(v4, true, c) || HasEnds(v6, true, c) {
      HasEndsConcat(v4, v6, true, c);
    }
    forall p: nat ensures ListensOn(v4 + v6, p) <==> ListensOn(v4, p) || ListensOn(v6, p) {
      ListensOnConcat(v4, v6, p);
    }
  }

  /** The kernel's sockets of one container. */
  datatype Container = Container(name: string, pid: nat, header: string, v4: seq<Sock>, v6: seq<Sock>) {
    ghost predicate Shown(read: (nat, bool) -> Option<string>) {
      NoEol(header) && (forall k :: 0 <= k < |v4| ==> v4[k].Valid()) && (forall k :: 0 <= k < |v6| ==> v6[k].Valid())
      && read(pid, false) == Some(PrintTable(header, v4)) && read(pid, true) == Some(PrintTable(header, v6))
    }
  }

  function Pids(containers: seq<Container>): seq<(string, nat)> {
    seq(|containers|, i requires 0 <= i < |containers| => (containers[i].name, containers[i].pid))
  }

  ghost predicate FromContainers(x: Connection, containers: seq<Container>) {
    exists c :: c in containers && FromSockets(x, c.name, c.v4 + c.v6)
  }

  /** From the sockets to the list: when every container's tables show its sockets, the scan succeeds and
      lists, once each, exactly the remote ends of the wanted non-local sockets of all containers. */
  lemma ConnectionsOfSockets(containers: seq<Container>, read: (nat, bool) -> Option<string>, x: Connection)
    requires forall i :: 0 <= i < |containers| ==> containers[i].Shown(read)
    ensures var r := Scanned(Pids(containers), read);
            r.Some? && NoRepeats(r.value) && (x in r.value <==> FromContainers(x, containers))
  {
    var pids := Pids(containers);
    ScanExact(pids, read);
    forall i | 0 <= i < |containers|
      ensures Merged(pids[i].1, read).Some?
      ensures var t := Merged(pids[i].1, read).value; var c := containers[i];
              From(x, c.name, t.conns, t.listen) <==> FromSockets(x, c.name, c.v4 + c.v6)
    {
      var c := containers[i];
      MergedHolds(c.pid, read, c.header, c.v4, c.v6);
      SameConnections(x, c.name, c.v4 + c.v6, Merged(c.pid, read).value);
    }
    hide Merged, From, FromSockets, NoRepeats, Scanned, Container.Shown;
  }

  lemma SameConnections(x: Connection, name: string, socks: seq<Sock>, t: Table)
    requires forall c :: c in t.conns <==> HasEnds(socks, true, c)
    requires forall p: nat :: p in t.listen <==> ListensOn(socks, p)
    ensures From(x, name, t.conns, t.listen) <==> FromSockets(x, name, socks)
  {
    hide HasEnds, ListensOn, Local;
  }
}
