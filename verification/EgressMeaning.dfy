/**
 What the declarations of a network posture mean, in terms of addresses, protocols
 and ports alone.
 */
module EgressMeaning {
  import opened PrefixTree
  import opened Netip
  import opened Exemptions
  import opened EgressPolicy
  import opened Wrappers

  /**
   An entry is usable exactly when it names a port or a list of ports and not both,
   each of TCP or UDP, and each range lies within 1 to 65535 and is not empty.
   */
  lemma PortsUsable(a: Allow)
    ensures PortsOk(a) <==>
            if a.ports == [] then 1 <= a.port <= 65535
            else
              && a.port == 0
              && forall d :: d in a.ports ==>
                   && (d.protocol == Unset || d.protocol == TCP || d.protocol == UDP)
                   && 1 <= d.port <= (if d.endPort.Some? then d.endPort.value else d.port) <= 65535
  {
    forall d ensures DeclOk(d) <==>
                     && (d.protocol == Unset || d.protocol == TCP || d.protocol == UDP)
                     && 1 <= d.port <= (if d.endPort.Some? then d.endPort.value else d.port) <= 65535
    {
    }
    hide DeclOk;
    if a.ports != [] {
      assert a.ports[0] in a.ports;
    }
  }

  /** What a usable entry declares: its one port over TCP, or each port and range of its list; TCP if it names none. */
  lemma PortsDeclared(a: Allow, protocol: Protocol, port: int)
    requires PortsOk(a)
    ensures DeclaresPort(a, protocol, port) <==>
            if a.ports == [] then protocol == TCP && port == a.port
            else exists d ::
                   && d in a.ports
                   && protocol == (if d.protocol == Unset then TCP else d.protocol)
                   && (port == d.port || (d.endPort.Some? && d.port <= port <= d.endPort.value))
    ensures DeclaresPort(a, protocol, port) ==> 1 <= port <= 65535 && (protocol == TCP || protocol == UDP)
  {
    PortsUsable(a);
    hide PortsOk;
    if d :| && d in a.ports
            && protocol == (if d.protocol == Unset then TCP else d.protocol)
            && (port == d.port || (d.endPort.Some? && d.port <= port <= d.endPort.value)) {
      assert OrTCP(d.protocol) == protocol;
    }
  }

  /** The block lets an address through: it holds it, it is not reserved, and its family has a reserved block. */
  ghost predicate Opens(c: Config, exempt: seq<Cidr>, p: Prefix, a: Addr)
    requires Parses(exempt)
  {
    Contains(p, a) && !LeftReserved(c.reserved, exempt, a) && FamilyKept(c.reserved, exempt, Family4(Net(p)))
  }

  /**
   What an entry reaches: the addresses of its CIDR, without one its literal host,
   unmapped, or the addresses that its name resolves to; each less the reserved ones.
   */
  lemma EntryMeans(c: Config, exempt: seq<Cidr>, a: Allow, k: Packet)
    requires Parses(exempt)
    ensures (exists b :: EntryReaches(c, exempt, a, b, k)) <==>
            && DeclaresPort(a, k.protocol, k.port)
            && match a.cidr
               case Some(cidr) => cidr.Text? && Opens(c, exempt, cidr.prefix, k.addr)
               case None =>
                 match a.host
                 case Literal(host) =>
                   && k.addr == Unmap(host) && !LeftReserved(c.reserved, exempt, k.addr)
                   && FamilyKept(c.reserved, exempt, Is4(Unmap(host)))
                 case Name(name) =>
                   && c.lookup(name).Some?
                   && exists b :: b in c.lookup(name).value && b.Text? && Opens(c, exempt, b.prefix, k.addr)
  {
    hide DeclaresPort, Contains, Net, LeftReserved, FamilyKept, Unmap, Family4;
    if a.cidr.None? && a.host.Literal? {
      var host := Unmap(a.host.addr);
      var b := Text(Prefix(host, BitLen(host)));
      HostContains(host, k.addr);
      HostFamily(host);
      LiteralBases(c, a);
      assert EntryReaches(c, exempt, a, b, k) <==> Reaches(c, exempt, b, k.addr) && DeclaresPort(a, k.protocol, k.port);
    } else if a.cidr.Some? && a.cidr.value.Text? {
      assert EntryReaches(c, exempt, a, a.cidr.value, k) <==>
             Reaches(c, exempt, a.cidr.value, k.addr) && DeclaresPort(a, k.protocol, k.port);
    } else if a.cidr.None? && c.lookup(a.host.name).Some? {
      forall b ensures EntryReaches(c, exempt, a, b, k) <==>
                       && b in c.lookup(a.host.name).value && b.Text? && Opens(c, exempt, b.prefix, k.addr)
                       && DeclaresPort(a, k.protocol, k.port)
      {
      }
    }
  }

  lemma LiteralBases(c: Config, a: Allow)
    requires a.cidr.None? && a.host.Literal?
    ensures var host := Unmap(a.host.addr); BasesFor(c, a) == Blocks([Text(Prefix(host, BitLen(host)))])
  {
  }

  /** The family of a single unmapped address is its own. */
  lemma HostFamily(a: Addr)
    requires exists h :: a == Unmap(h)
    ensures Family4(Net(Prefix(a, BitLen(a)))) == Is4(a)
  {
    hide Contains, Family4, Net, Mapped;
    HostContains(a, a);
    UnmapTwice(a);
    FamilyOfAddress(Prefix(a, BitLen(a)), a);
  }

  lemma UnmapTwice(a: Addr)
    requires exists h :: a == Unmap(h)
    ensures !Mapped(a)
  {
  }

  /** An entry is refused exactly for its ports, a malformed CIDR, or a lookup that answers with a malformed one. */
  lemma EntryUsable(c: Config, a: Allow)
    ensures EntryOk(c, a) <==>
            && PortsOk(a)
            && (a.cidr.Some? ==> a.cidr.value.Text?)
            && (a.cidr.None? && a.host.Name? && c.lookup(a.host.name).Some? ==>
                  forall b :: b in c.lookup(a.host.name).value ==> b.Text?)
  {
    hide PortsOk, Unmap;
  }

  /** An entry has no address exactly when it names a host that does not resolve, or to nothing. */
  lemma EntryUnlocated(c: Config, a: Allow)
    ensures NotLocated(c, a) <==>
            a.cidr.None? && a.host.Name? && (c.lookup(a.host.name).None? || c.lookup(a.host.name).value == [])
  {
    hide Unmap;
  }

  /** A block is withheld exactly when one reserved block holds all its addresses, or none has its family. */
  lemma CoveredMeans(reserved: seq<Cidr>, b: Cidr)
    requires b.Text?
    ensures CoveredBase(reserved, b) <==>
            || (exists c :: c in reserved && c.Text? && forall a :: Contains(b.prefix, a) ==> Contains(c.prefix, a))
            || !FamilyIn(reserved, Family4(Net(b.prefix)))
  {
    hide Net, Contains, FamilyIn, Family4;
    forall c: Cidr | c.Text?
      ensures Net(c.prefix) <= Net(b.prefix) <==> forall a :: Contains(b.prefix, a) ==> Contains(c.prefix, a)
    {
      HoldsAll(c.prefix, b.prefix);
    }
  }

  /** A prefix holds all addresses of another exactly when its block is above the other's. */
  lemma HoldsAll(p: Prefix, q: Prefix)
    ensures Net(p) <= Net(q) <==> forall a :: Contains(q, a) ==> Contains(p, a)
  {
    hide Net, Contains, AddrPath;
    forall a ensures Contains(p, a) <==> Net(p) <= AddrPath(a) {
      ContainsNets(p, a);
    }
    forall a ensures Contains(q, a) <==> Net(q) <= AddrPath(a) {
      ContainsNets(q, a);
    }
    if forall a :: Contains(q, a) ==> Contains(p, a) {
      var leaf := FirstLeaf(Net(q));
      var a := LeafAddr(leaf);
      CommonAddress(Net(p), Net(q), leaf);
      if Net(q) < Net(p) {
        var other := FirstLeaf(Net(q) + [!Net(p)[|Net(q)|]]);
        var b := LeafAddr(other);
        assert Net(q) <= other && other[|Net(q)|] != Net(p)[|Net(q)|];
      }
    }
  }

  /** External-only is every IPv4 address on every port, less the reserved ones, while IPv4 has a reserved block. */
  lemma ExternalMeans(c: Config, exempt: seq<Cidr>, allow: seq<Allow>, k: Packet)
    requires Parses(exempt)
    ensures ModeDeclares(c, exempt, Network(ExternalOnly, allow), k) <==>
            |k.addr| == 4 && !LeftReserved(c.reserved, exempt, k.addr) && FamilyKept(c.reserved, exempt, true)
  {
    hide Net, LeftReserved, FamilyKept;
    AllV4Family();
    AllV4Holds(k.addr);
  }

  lemma AllV4Holds(a: Addr)
    ensures Contains(ALL_V4.prefix, a) <==> |a| == 4
  {
    if |a| == 4 {
      SameBytes(ALL_V4.prefix, a);
    }
  }

  /** DNS is port 53, over UDP or TCP, to the address of a resolver that has a zone or is not reserved as unmapped. */
  lemma DnsMeans(c: Config, exempt: seq<Cidr>, k: Packet)
    ensures DnsDeclared(c, exempt, k) <==>
            && k.port == 53 && (k.protocol == UDP || k.protocol == TCP)
            && exists ip ::
                 && ip in c.resolvers && !ip.BadIp? && ip.addr == k.addr
                 && ((ip.Zoned? && !Mapped(ip.addr)) || !LeftReserved(c.reserved, exempt, Unmap(ip.addr)))
  {
    hide LeftReserved, Mapped, Unmap;
  }

  /** Every other mode declares nothing of its own, and no network declares nothing at all. */
  lemma OtherModes(c: Config, exempt: seq<Cidr>, posture: Network, k: Packet)
    requires Parses(exempt) && posture.mode != ExternalOnly && posture.mode != AllowList
    ensures Declared(c, exempt, posture, k) <==> posture.mode != NoNetwork && DnsDeclared(c, exempt, k)
    ensures posture.mode != NoNetwork ==> forall class_ :: !Compiles(c, posture, class_)
  {
    hide DnsDeclared;
  }
}
