/**
 The egress policy compiler of internal/netpol/generator.go: from the declared
 network posture of a Sandbox and its class to NetworkPolicy rules, and what
 those rules admit.
 */
module EgressPolicy {
  import opened PrefixTree
  import opened Netip
  import opened Exemptions
  import opened Wrappers

  // ---------------------------------------------------------------------------
  // Declarations
  // ---------------------------------------------------------------------------

  datatype Protocol = Unset | TCP | UDP | Other(name: string)

  datatype PortRef = IntPort(number: int) | NamedPort(name: string)

  datatype PortDecl = PortDecl(protocol: Protocol, port: int, endPort: Option<int>)

  /** A host text: a literal address, or a name to be resolved. */
  datatype Host = Literal(addr: Addr) | Name(name: string)

  /** One allow-list entry. `cidr` is None when the field is empty. */
  datatype Allow = Allow(host: Host, cidr: Option<Cidr>, port: int, ports: seq<PortDecl>)

  datatype Mode = EmptyMode | NoNetwork | ExternalOnly | AllowList | UnknownMode(name: string)

  datatype Network = Network(mode: Mode, allow: seq<Allow>)

  datatype SelectorPort = SelectorPort(protocol: Protocol, port: PortRef)

  /** A selector allowance of a class: selectors kept verbatim, and ports. */
  datatype Allowance = Allowance(selector: string, ports: seq<SelectorPort>)

  datatype Class = Class(exempt: seq<Cidr>, allowances: seq<Allowance>, defaultNetwork: Network)

  datatype IpRaw = BadIp | Ip(addr: Addr) | Zoned(addr: Addr)

  /** A resolver text: malformed, an address, or an IPv6 address with a zone. */
  type IpText = ip: IpRaw | ip.Zoned? ==> |ip.addr| == 16 witness BadIp

  type Resolver = ip: IpText | !ip.BadIp? witness Ip([0, 0, 0, 0])

  /** The zone outlasts Unmap: no prefix contains such an address. */
  predicate KeepsZone(ip: Resolver) {
    ip.Zoned? && !Mapped(ip.addr)
  }

  /** The cluster-wide posture. `lookup` answers None for a name that does not resolve. */
  datatype Config = Config(reserved: seq<Cidr>, resolvers: seq<IpText>, lookup: string -> Option<seq<Cidr>>)

  datatype Error = NilSandbox | UnknownModeError | InvalidCIDR | InvalidPorts | InvalidResolver | NoReachableResolver

  datatype Result<+T> = Ok(value: T) | Err(error: Error)

  // ---------------------------------------------------------------------------
  // Policies and what they admit
  // ---------------------------------------------------------------------------

  datatype PolicyPort = PolicyPort(protocol: Protocol, port: PortRef, endPort: Option<int>)

  datatype Peer = IPBlock(cidr: Prefix, except: seq<Prefix>) | Selector(selector: string)

  datatype Rule = Rule(to: seq<Peer>, ports: seq<PolicyPort>)

  datatype AllowPort = AllowPort(protocol: Protocol, port: int, endPort: int)

  /** The egress rules, and the entries dropped as suppressed or unresolved. */
  datatype Policy = Policy(egress: seq<Rule>, suppressed: seq<Allow>, unresolved: seq<Allow>)

  datatype Packet = Packet(addr: Addr, protocol: Protocol, port: int)

  predicate BlockAdmits(peer: Peer, a: Addr) {
    peer.IPBlock? && Contains(peer.cidr, a) && forall e :: e in peer.except ==> !Contains(e, a)
  }

  predicate PortAdmits(p: PolicyPort, protocol: Protocol, port: int) {
    && p.protocol == protocol && p.port.IntPort?
    && match p.endPort
       case None => port == p.port.number
       case Some(end) => p.port.number <= port <= end
  }

  /** A rule with no peers names every address; a rule with no ports names every port. */
  predicate RuleAdmits(rule: Rule, k: Packet) {
    && (rule.to == [] || exists peer :: peer in rule.to && BlockAdmits(peer, k.addr))
    && (rule.ports == [] || exists p :: p in rule.ports && PortAdmits(p, k.protocol, k.port))
  }

  predicate Admits(rules: seq<Rule>, k: Packet) {
    exists rule :: rule in rules && RuleAdmits(rule, k)
  }

  /** Kubernetes accepts an except entry only strictly inside its block. */
  predicate WellNested(rules: seq<Rule>) {
    forall rule, peer, e ::
      rule in rules && peer in rule.to && peer.IPBlock? && e in peer.except ==> Net(peer.cidr) < Net(e)
  }

  // ---------------------------------------------------------------------------
  // Posture, ports and bases
  // ---------------------------------------------------------------------------

  /** An explicit network block wins; else the class default; else no network. */
  function EffectivePosture(network: Option<Network>, class_: Option<Class>): Network {
    if network.Some? then network.value
    else if class_.Some? && class_.value.defaultNetwork.mode != EmptyMode then class_.value.defaultNetwork
    else Network(NoNetwork, [])
  }

  predicate ValidPort(p: int) {
    1 <= p <= 65535
  }

  function OrTCP(p: Protocol): Protocol {
    if p == Unset then TCP else p
  }

  /** The declaration of one port or range is usable. */
  predicate DeclOk(d: PortDecl) {
    && OrTCP(d.protocol) in {TCP, UDP}
    && ValidPort(d.port)
    && (d.endPort.Some? && d.endPort.value != d.port ==> ValidPort(d.endPort.value) && d.port <= d.endPort.value)
  }

  /** An entry names its ports in exactly one form, and every one of them is usable. */
  predicate PortsOk(a: Allow) {
    && (a.port != 0) != (|a.ports| > 0)
    && (a.port != 0 ==> ValidPort(a.port))
    && forall d :: d in a.ports ==> DeclOk(d)
  }

  /** The (protocol, port) is one that the entry declares. */
  predicate DeclaresPort(a: Allow, protocol: Protocol, port: int) {
    if a.port != 0 then protocol == TCP && port == a.port
    else exists d :: d in a.ports && OrTCP(d.protocol) == protocol &&
                     d.port <= port <= (if d.endPort.Some? then d.endPort.value else d.port)
  }

  function RenderPort(p: AllowPort): PolicyPort {
    PolicyPort(p.protocol, IntPort(p.port), if p.endPort != 0 then Some(p.endPort) else None)
  }

  predicate SomePortAdmits(ps: seq<AllowPort>, protocol: Protocol, port: int) {
    exists p :: p in ps && PortAdmits(RenderPort(p), protocol, port)
  }

  /** The ports of one entry. The list is never empty: a rule without ports admits every port. */
  method PortsFor(a: Allow) returns (r: Result<seq<AllowPort>>)
    ensures r.Ok? <==> PortsOk(a)
    ensures r.Err? ==> r.error == InvalidPorts
    ensures r.Ok? ==> r.value != []
    ensures r.Ok? ==>
              forall protocol, port :: SomePortAdmits(r.value, protocol, port) <==> DeclaresPort(a, protocol, port)
  {
    if (a.port != 0) == (|a.ports| > 0) {
      return Err(InvalidPorts);
    }
    if a.port != 0 {
      if !ValidPort(a.port) {
        return Err(InvalidPorts);
      }
      var one := AllowPort(TCP, a.port, 0);
      assert one in [one];
      return Ok([one]);
    }
    var out: seq<AllowPort> := [];
    for i := 0 to |a.ports|
      invariant |out| == i
      invariant forall d :: d in a.ports[..i] ==> DeclOk(d)
      invariant forall k :: 0 <= k < i ==> out[k] == PortOf(a.ports[k])
    {
      var d := a.ports[i];
      var protocol := if d.protocol == Unset then TCP else d.protocol;
      assert d in a.ports;
      if protocol != TCP && protocol != UDP {
        return Err(InvalidPorts);
      }
      if !ValidPort(d.port) {
        return Err(InvalidPorts);
      }
      var entry := AllowPort(protocol, d.port, 0);
      if d.endPort.Some? && d.endPort.value != d.port {
        if !ValidPort(d.endPort.value) || d.endPort.value < d.port {
          return Err(InvalidPorts);
        }
        entry := entry.(endPort := d.endPort.value);
      }
      out := out + [entry];
    }
    assert a.ports[..|a.ports|] == a.ports;
    forall protocol, port ensures SomePortAdmits(out, protocol, port) <==> DeclaresPort(a, protocol, port) {
      PortsDenote(a, out, protocol, port);
    }
    return Ok(out);
  }

  function PortOf(d: PortDecl): AllowPort {
    AllowPort(OrTCP(d.protocol), d.port,
              if d.endPort.Some? && d.endPort.value != d.port then d.endPort.value else 0)
  }

  lemma PortsDenote(a: Allow, out: seq<AllowPort>, protocol: Protocol, port: int)
    requires a.port == 0 && |out| == |a.ports| && forall d :: d in a.ports ==> DeclOk(d)
    requires forall k :: 0 <= k < |out| ==> out[k] == PortOf(a.ports[k])
    ensures SomePortAdmits(out, protocol, port) <==> DeclaresPort(a, protocol, port)
  {
    if SomePortAdmits(out, protocol, port) {
      var k :| 0 <= k < |out| && PortAdmits(RenderPort(out[k]), protocol, port);
      assert a.ports[k] in a.ports;
    }
    if DeclaresPort(a, protocol, port) {
      var k :| 0 <= k < |a.ports| && OrTCP(a.ports[k].protocol) == protocol &&
               var p := a.ports[k];
               p.port <= port <= (if p.endPort.Some? then p.endPort.value else p.port);
      assert out[k] in out && a.ports[k] in a.ports;
    }
  }

  datatype Bases = Malformed | Unresolved | Blocks(cidrs: seq<Cidr>)

  /** The blocks an entry may name: its CIDR, else its literal address, else the answers of the lookup. */
  function BasesFor(c: Config, a: Allow): Bases {
    if a.cidr.Some? then
      if a.cidr.value.Bad? then Malformed else Blocks([a.cidr.value])
    else match a.host
      case Literal(addr) => Blocks([Text(Prefix(Unmap(addr), BitLen(Unmap(addr))))])
      case Name(name) =>
        var answer := c.lookup(name);
        if answer.None? then Unresolved else Blocks(answer.value)
  }

  // ---------------------------------------------------------------------------
  // Subtracting the reserved list from one base block
  // ---------------------------------------------------------------------------

  datatype Except = Covered | Except(list: seq<Prefix>)

  /** A reserved block contains all of base. */
  predicate InsideReserved(base: Prefix, reserved: seq<Cidr>) {
    exists c :: c in reserved && c.Text? && Net(c.prefix) <= Net(base)
  }

  /** What a rule for base may reach: base minus the reserved list, when its family is in the list at all. */
  predicate BaseGrants(reserved: seq<Cidr>, base: Cidr, a: Addr) {
    base.Text? && Contains(base.prefix, a) && !InList(reserved, a) && FamilyIn(reserved, Family4(Net(base.prefix)))
  }

  /** The list holds the reserved blocks strictly inside base, and only those. */
  predicate ExceptOf(base: Prefix, reserved: seq<Cidr>, list: seq<Prefix>) {
    && (forall c :: c in reserved && c.Text? && Net(base) < Net(c.prefix) ==> Masked(c.prefix) in list)
    && (forall e :: e in list ==> Net(base) < Net(e) && exists c :: c in reserved && c.Text? && Net(c.prefix) == Net(e))
  }

  /**
   The except list of a rule whose block is base. The block is covered, and the
   rule is to be omitted, exactly when a reserved block contains it or no
   reserved block has its family.
   */
  method ExceptFor(base: Cidr, reserved: seq<Cidr>) returns (r: Result<Except>)
    ensures base.Text? && Parses(reserved) ==> r.Ok?
    ensures r.Err? ==> r.error == InvalidCIDR
    ensures r.Ok? ==> base.Text?
    ensures r.Ok? && Parses(reserved) ==>
              (r.value.Covered? <==>
                 InsideReserved(base.prefix, reserved) || !FamilyIn(reserved, Family4(Net(base.prefix))))
    ensures r.Ok? && r.value.Except? ==> forall e :: e in r.value.list ==> Net(base.prefix) < Net(e)
    ensures r.Ok? ==> forall a :: BaseGrants(reserved, base, a) <==>
                                  r.value.Except? && BlockAdmits(IPBlock(base.prefix, r.value.list), a)
  {
    hide Net, Overlaps, Masked, Unmap, Family4, InsideReserved, FamilyIn, ExceptOf, BaseGrants, BlockAdmits;
    if base.Bad? {
      return Err(InvalidCIDR);
    }
    var bp := Masked(base.prefix);
    FamilyOfBlock(base.prefix);
    var baseIs4 := Is4(Unmap(bp.addr));
    var sameFamily, except := false, [];
    ExceptStart(base.prefix, baseIs4);
    for i := 0 to |reserved|
      invariant Parses(reserved[..i])
      invariant ExceptOf(base.prefix, reserved[..i], except)
      invariant !InsideReserved(base.prefix, reserved[..i])
      invariant sameFamily == FamilyIn(reserved[..i], baseIs4)
    {
      var c := reserved[i];
      assert c in reserved && reserved[..i + 1] == reserved[..i] + [c];
      if c.Bad? {
        return Err(InvalidCIDR);
      }
      var rp := Masked(c.prefix);
      ExceptStep(base.prefix, reserved[..i], c, except);
      if Is4(Unmap(rp.addr)) == baseIs4 {
        sameFamily := true;
      }
      if Overlaps(rp, bp) && rp.bits <= bp.bits {
        InsideMoreReserved(base.prefix, reserved, c);
        CoveredGrantsNothing(base, reserved);
        return Ok(Covered);
      } else if Overlaps(bp, rp) {
        except := except + [rp];
      }
    }
    assert reserved[..|reserved|] == reserved;
    ExceptDone(base, reserved, except);
    if !sameFamily {
      return Ok(Covered);
    }
    return Ok(Except(except));
  }

  lemma ExceptStart(base: Prefix, v4: bool)
    ensures ExceptOf(base, [], []) && !InsideReserved(base, []) && !FamilyIn([], v4)
  {
  }

  lemma InsideMoreReserved(base: Prefix, reserved: seq<Cidr>, c: Cidr)
    requires c in reserved && c.Text? && Net(c.prefix) <= Net(base)
    ensures InsideReserved(base, reserved)
  {
  }

  /** What one more reserved block does to the scan. */
  lemma ExceptStep(base: Prefix, seen: seq<Cidr>, c: Cidr, except: seq<Prefix>)
    requires c.Text? && ExceptOf(base, seen, except)
    ensures var bp, rp := Masked(base), Masked(c.prefix);
            && (Overlaps(rp, bp) && rp.bits <= bp.bits <==> Net(c.prefix) <= Net(base))
            && (InsideReserved(base, seen + [c]) <==> InsideReserved(base, seen) || Net(c.prefix) <= Net(base))
            && (!(Net(c.prefix) <= Net(base)) ==>
                  ExceptOf(base, seen + [c], if Overlaps(bp, rp) then except + [rp] else except))
            && (forall v4 :: FamilyIn(seen + [c], v4) <==> FamilyIn(seen, v4) || Is4(Unmap(rp.addr)) == v4)
  {
    hide Net, Overlaps, Masked, Unmap, Family4;
    var bp, rp := Masked(base), Masked(c.prefix);
    MaskedNet(base);
    MaskedNet(c.prefix);
    FamilyOfBlock(c.prefix);
    OverlapsNets(rp, bp);
    OverlapsNets(bp, rp);
    assert c in seen + [c];
  }

  lemma ExceptDone(base: Cidr, reserved: seq<Cidr>, except: seq<Prefix>)
    requires base.Text? && ExceptOf(base.prefix, reserved, except) && !InsideReserved(base.prefix, reserved)
    ensures forall e :: e in except ==> Net(base.prefix) < Net(e)
    ensures forall a :: BaseGrants(reserved, base, a) <==>
                        FamilyIn(reserved, Family4(Net(base.prefix))) && BlockAdmits(IPBlock(base.prefix, except), a)
  {
    hide Net, FamilyIn, InList, Contains, InsideReserved, BlockAdmits;
    forall a
      ensures BlockAdmits(IPBlock(base.prefix, except), a) <==> Contains(base.prefix, a) && !InList(reserved, a)
    {
      ExceptExact(base.prefix, reserved, except, a);
    }
  }

  lemma CoveredGrantsNothing(base: Cidr, reserved: seq<Cidr>)
    requires base.Text? && InsideReserved(base.prefix, reserved)
    ensures forall a :: !BaseGrants(reserved, base, a)
  {
    hide Net, Contains, FamilyIn;
    var c :| c in reserved && c.Text? && Net(c.prefix) <= Net(base.prefix);
    forall a ensures !BaseGrants(reserved, base, a) {
      ContainsNets(base.prefix, a);
      ContainsNets(c.prefix, a);
    }
  }

  /** Base minus its except list is base minus the reserved list. */
  lemma ExceptExact(base: Prefix, reserved: seq<Cidr>, list: seq<Prefix>, a: Addr)
    requires ExceptOf(base, reserved, list) && !InsideReserved(base, reserved)
    ensures BlockAdmits(IPBlock(base, list), a) <==> Contains(base, a) && !InList(reserved, a)
  {
    hide Net, Contains, Masked;
    ContainsNets(base, a);
    if Contains(base, a) && InList(reserved, a) {
      var c :| c in reserved && c.Text? && Contains(c.prefix, a);
      ContainsNets(c.prefix, a);
      CommonAddress(Net(base), Net(c.prefix), AddrPath(a));
      MaskedNet(c.prefix);
      ContainsNets(Masked(c.prefix), a);
      assert Masked(c.prefix) in list;
    }
    if !InList(reserved, a) {
      forall e | e in list ensures !Contains(e, a) {
        var c :| c in reserved && c.Text? && Net(c.prefix) == Net(e);
        ContainsNets(c.prefix, a);
        ContainsNets(e, a);
      }
    }
  }

  // ---------------------------------------------------------------------------
  // DNS resolvers and selector allowances
  // ---------------------------------------------------------------------------

  /** Some allowance of the class grants port 53 by number. */
  predicate ClassGrantsDNS(class_: Option<Class>) {
    class_.Some? && exists s, p :: s in class_.value.allowances && p in s.ports && p.port == IntPort(53)
  }

  method GrantsDNS(class_: Option<Class>) returns (granted: bool)
    ensures granted <==> ClassGrantsDNS(class_)
  {
    if class_.None? {
      return false;
    }
    var allowances := class_.value.allowances;
    for i := 0 to |allowances|
      invariant forall s, p :: s in allowances[..i] && p in s.ports ==> p.port != IntPort(53)
    {
      var ports := allowances[i].ports;
      for j := 0 to |ports|
        invariant forall p :: p in ports[..j] ==> p.port != IntPort(53)
      {
        if ports[j].port.IntPort? && ports[j].port.number == 53 {
          assert allowances[i] in allowances && ports[j] in allowances[i].ports;
          return true;
        }
      }
    }
    return false;
  }

  predicate OutsideReserved(reserved: seq<Cidr>, ip: IpText) {
    !ip.BadIp? && (KeepsZone(ip) || !InList(reserved, Unmap(ip.addr)))
  }

  /** The resolvers outside the reserved list, or all of them, in their configured order. */
  function KeptResolvers(ips: seq<IpText>, reserved: seq<Cidr>, all_: bool): seq<Resolver> {
    if ips == [] then []
    else
      var last := ips[|ips| - 1];
      KeptResolvers(ips[..|ips| - 1], reserved, all_) +
      if !last.BadIp? && (all_ || OutsideReserved(reserved, last)) then [last] else []
  }

  lemma {:induction false} KeptMembers(ips: seq<IpText>, reserved: seq<Cidr>, all_: bool, ip: Resolver)
    ensures ip in KeptResolvers(ips, reserved, all_) <==> ip in ips && (all_ || OutsideReserved(reserved, ip))
  {
    if ips != [] {
      var front, last := ips[..|ips| - 1], ips[|ips| - 1];
      assert ips == front + [last];
      KeptMembers(front, reserved, all_, ip);
    }
  }

  /** The addresses that hostCIDR writes: without their zones. */
  function Addrs(ips: seq<Resolver>): seq<Addr> {
    seq(|ips|, i requires 0 <= i < |ips| => ips[i].addr)
  }

  lemma AddrsMembers(ips: seq<Resolver>, a: Addr)
    ensures a in Addrs(ips) <==> exists ip: Resolver :: ip in ips && ip.addr == a
  {
    if a in Addrs(ips) {
      var i :| 0 <= i < |ips| && Addrs(ips)[i] == a;
      assert ips[i] in ips;
    }
    if ip: Resolver :| ip in ips && ip.addr == a {
      var i :| 0 <= i < |ips| && ips[i] == ip;
      assert Addrs(ips)[i] == a;
    }
  }

  datatype ResolverSet = ResolverSet(ipBlock: seq<Resolver>, pod: seq<Resolver>)

  /** The resolver list parses and the class can reach at least one resolver, or none is configured. */
  predicate ResolversOk(c: Config, class_: Option<Class>, reserved: seq<Cidr>) {
    && (forall ip :: ip in c.resolvers ==> !ip.BadIp?)
    && (c.resolvers == [] || ClassGrantsDNS(class_) || exists ip :: ip in c.resolvers && OutsideReserved(reserved, ip))
  }

  /**
   Splits the resolvers: the ones an ipBlock reaches, and the ones the Pod is
   pointed at. A resolver inside the reserved list counts only when the class
   grants DNS through a selector.
   */
  method ResolverSplit(c: Config, class_: Option<Class>, reserved: seq<Cidr>) returns (r: Result<ResolverSet>)
    ensures r.Ok? <==> Parses(reserved) && ResolversOk(c, class_, reserved)
    ensures r == Err(InvalidResolver) <==> Parses(reserved) && exists ip :: ip in c.resolvers && ip.BadIp?
    ensures r == Err(NoReachableResolver) <==>
            && Parses(reserved) && (forall ip :: ip in c.resolvers ==> !ip.BadIp?) && !ResolversOk(c, class_, reserved)
    ensures r.Err? ==> r.error in {InvalidCIDR, InvalidResolver, NoReachableResolver}
    ensures r.Ok? ==> r.value == ResolverSet(KeptResolvers(c.resolvers, reserved, false),
                                             KeptResolvers(c.resolvers, reserved, ClassGrantsDNS(class_)))
  {
    hide Net, OutsideReserved, KeptResolvers;
    var ok, prefixes := ParseMasked(reserved);
    if !ok {
      return Err(InvalidCIDR);
    }
    var dnsAllowed := GrantsDNS(class_);
    var out := ResolverSet([], []);
    KeptNone(reserved);
    for i := 0 to |c.resolvers|
      invariant forall ip :: ip in c.resolvers[..i] ==> !ip.BadIp?
      invariant out == ResolverSet(KeptResolvers(c.resolvers[..i], reserved, false),
                                   KeptResolvers(c.resolvers[..i], reserved, dnsAllowed))
    {
      var ip := c.resolvers[i];
      assert ip in c.resolvers && c.resolvers[..i + 1] == c.resolvers[..i] + [ip];
      if ip.BadIp? {
        return Err(InvalidResolver);
      }
      KeptAppend(c.resolvers[..i], reserved, ip);
      var inReserved := ReservedHolds(reserved, prefixes, ip);
      if !inReserved {
        out := ResolverSet(out.ipBlock + [ip], out.pod + [ip]);
      } else if dnsAllowed {
        out := out.(pod := out.pod + [ip]);
      }
    }
    assert c.resolvers[..|c.resolvers|] == c.resolvers;
    PodResolvers(c.resolvers, reserved, dnsAllowed);
    if |c.resolvers| > 0 && |out.pod| == 0 {
      return Err(NoReachableResolver);
    }
    return Ok(out);
  }

  /** Whether some reserved prefix contains the unmapped resolver. None contains an address with a zone. */
  method ReservedHolds(ghost reserved: seq<Cidr>, prefixes: seq<Prefix>, ip: Resolver) returns (inside: bool)
    requires Parses(reserved) && Nets(prefixes) == CidrNets(reserved)
    ensures inside <==> !OutsideReserved(reserved, ip)
  {
    hide Contains, Net, Unmap, Mapped;
    var addr, zone := Unmap(ip.addr), ip.Zoned? && !Mapped(ip.addr);
    inside := false;
    for j := 0 to |prefixes|
      invariant inside <==> !zone && exists k :: 0 <= k < j && Contains(prefixes[k], addr)
    {
      if !zone && Contains(prefixes[j], addr) {
        inside := true;
        break;
      }
    }
    SameBlocksSameAddresses(reserved, prefixes, addr);
  }

  lemma KeptNone(reserved: seq<Cidr>)
    ensures forall all_ :: KeptResolvers([], reserved, all_) == []
  {
  }

  lemma KeptAppend(ips: seq<IpText>, reserved: seq<Cidr>, ip: Resolver)
    ensures forall all_ ::
              KeptResolvers(ips + [ip], reserved, all_) ==
                if all_ || OutsideReserved(reserved, ip) then KeptResolvers(ips, reserved, all_) + [ip]
                else KeptResolvers(ips, reserved, all_)
  {
    hide OutsideReserved;
    assert (ips + [ip])[..|ips|] == ips;
  }

  lemma SameBlocksSameAddresses(cs: seq<Cidr>, ps: seq<Prefix>, a: Addr)
    requires Parses(cs) && Nets(ps) == CidrNets(cs)
    ensures InList(cs, a) <==> exists k :: 0 <= k < |ps| && Contains(ps[k], a)
  {
    hide Contains, Net;
    assert |ps| == |cs|;
    forall k | 0 <= k < |ps| ensures Contains(ps[k], a) <==> Contains(cs[k].prefix, a) {
      assert Nets(ps)[k] == CidrNets(cs)[k];
      ContainsNets(ps[k], a);
      ContainsNets(cs[k].prefix, a);
    }
    if InList(cs, a) {
      var c :| c in cs && c.Text? && Contains(c.prefix, a);
      var k :| 0 <= k < |cs| && cs[k] == c;
      assert Contains(ps[k], a);
    }
  }

  lemma PodResolvers(ips: seq<IpText>, reserved: seq<Cidr>, all_: bool)
    requires forall ip :: ip in ips ==> !ip.BadIp?
    ensures KeptResolvers(ips, reserved, all_) != [] <==>
            ips != [] && (all_ || exists ip :: ip in ips && OutsideReserved(reserved, ip))
  {
    hide OutsideReserved;
    var kept := KeptResolvers(ips, reserved, all_);
    forall ip: Resolver ensures ip in kept <==> ip in ips && (all_ || OutsideReserved(reserved, ip)) {
      KeptMembers(ips, reserved, all_, ip);
    }
    if kept != [] {
      assert kept[0] in kept;
    }
    if ips != [] {
      assert ips[0] in ips;
    }
  }

  function HostPeer(a: Addr): Peer {
    IPBlock(Prefix(a, BitLen(a)), [])
  }

  lemma HostPeerAdmits(r: Addr, a: Addr)
    ensures BlockAdmits(HostPeer(r), a) <==> a == r
  {
    ContainsNets(Prefix(r, BitLen(r)), a);
    hide BitsOf, Contains;
    assert Net(Prefix(r, BitLen(r))) == AddrPath(r);
    if AddrPath(r) <= AddrPath(a) {
      assert AddrPath(r)[0] == AddrPath(a)[0];
      assert AddrPath(r) == AddrPath(a);
      assert BitsOf(r) == AddrPath(r)[1..] == AddrPath(a)[1..] == BitsOf(a);
      BitsExt(r, a);
    }
  }

  /** UDP and TCP port 53 to the given resolvers. */
  function DnsRule(resolvers: seq<Addr>): Rule {
    Rule(seq(|resolvers|, i requires 0 <= i < |resolvers| => HostPeer(resolvers[i])),
         [PolicyPort(UDP, IntPort(53), None), PolicyPort(TCP, IntPort(53), None)])
  }

  predicate DnsPacket(k: Packet) {
    k.port == 53 && (k.protocol == UDP || k.protocol == TCP)
  }

  lemma DnsRuleAdmits(resolvers: seq<Addr>, k: Packet)
    requires resolvers != []
    ensures RuleAdmits(DnsRule(resolvers), k) <==> k.addr in resolvers && DnsPacket(k)
  {
    hide HostPeer, BlockAdmits;
    var rule := DnsRule(resolvers);
    forall i | 0 <= i < |resolvers| ensures BlockAdmits(rule.to[i], k.addr) <==> k.addr == resolvers[i] {
      HostPeerAdmits(resolvers[i], k.addr);
    }
    if i :| 0 <= i < |resolvers| && k.addr == resolvers[i] {
      assert rule.to[i] in rule.to;
    }
    assert rule.ports[0] in rule.ports && rule.ports[1] in rule.ports;
  }

  function SelectorRule(s: Allowance): Rule {
    Rule([Selector(s.selector)],
         seq(|s.ports|, i requires 0 <= i < |s.ports| => PolicyPort(OrTCP(s.ports[i].protocol), s.ports[i].port, None)))
  }

  /** One rule for each selector allowance. */
  function SelectorRules(class_: Option<Class>): seq<Rule> {
    if class_.None? then []
    else
      var allowances := class_.value.allowances;
      seq(|allowances|, i requires 0 <= i < |allowances| => SelectorRule(allowances[i]))
  }

  /** The rules every permissive posture starts with. A DNS rule without peers is left out. */
  function HeadRules(class_: Option<Class>, resolvers: seq<Addr>): seq<Rule> {
    (if |resolvers| > 0 then [DnsRule(resolvers)] else []) + SelectorRules(class_)
  }

  lemma HeadAdmits(class_: Option<Class>, resolvers: seq<Addr>, k: Packet)
    ensures Admits(HeadRules(class_, resolvers), k) <==> k.addr in resolvers && DnsPacket(k)
    ensures WellNested(HeadRules(class_, resolvers))
  {
    hide BlockAdmits, PortAdmits, DnsPacket;
    var head := HeadRules(class_, resolvers);
    forall rule | rule in SelectorRules(class_) ensures !RuleAdmits(rule, k) && rule.to[0].Selector? && |rule.to| == 1 {
      SelectorNeverAdmits(rule, k);
    }
    if resolvers != [] {
      DnsRuleAdmits(resolvers, k);
      assert head[0] == DnsRule(resolvers);
    }
  }

  /** The rule lets the selected Pods be reached on the ports of the allowance; TCP where it names no protocol. */
  predicate RendersAllowance(rule: Rule, s: Allowance) {
    && rule.to == [Selector(s.selector)] && |rule.ports| == |s.ports|
    && forall i :: 0 <= i < |s.ports| ==>
         rule.ports[i] ==
         PolicyPort(if s.ports[i].protocol == Unset then TCP else s.ports[i].protocol, s.ports[i].port, None)
  }

  function AllowancesOf(class_: Option<Class>): seq<Allowance> {
    if class_.None? then [] else class_.value.allowances
  }

  /** The rules with a selector are those from `at` on, one for each allowance, in order. */
  predicate SelectorsAt(rules: seq<Rule>, allowances: seq<Allowance>, at: nat) {
    && at + |allowances| <= |rules|
    && (forall i :: at <= i < at + |allowances| ==> RendersAllowance(rules[i], allowances[i - at]))
    && (forall i, peer :: 0 <= i < |rules| && peer in rules[i].to && !(at <= i < at + |allowances|) ==> peer.IPBlock?)
  }

  ghost predicate SelectorsOf(rules: seq<Rule>, allowances: seq<Allowance>) {
    exists at :: SelectorsAt(rules, allowances, at)
  }

  lemma SelectorRendered(class_: Option<Class>, i: nat)
    requires i < |SelectorRules(class_)|
    ensures i < |AllowancesOf(class_)| && RendersAllowance(SelectorRules(class_)[i], AllowancesOf(class_)[i])
  {
  }

  lemma HeadSelectors(class_: Option<Class>, resolvers: seq<Addr>, more: seq<Rule>)
    requires OnlyBlocks(more)
    ensures SelectorsOf(HeadRules(class_, resolvers) + more, AllowancesOf(class_))
  {
    hide DnsRule, HostPeer, SelectorRule, RendersAllowance;
    var at: nat := if |resolvers| > 0 then 1 else 0;
    var allowances, own := AllowancesOf(class_), SelectorRules(class_);
    var rules := HeadRules(class_, resolvers) + more;
    assert |own| == |allowances| && |rules| == at + |own| + |more|;
    forall i | at <= i < at + |allowances| ensures RendersAllowance(rules[i], allowances[i - at]) {
      assert rules[i] == own[i - at];
      SelectorRendered(class_, i - at);
    }
    forall i, peer | 0 <= i < |rules| && peer in rules[i].to && !(at <= i < at + |allowances|)
      ensures peer.IPBlock?
    {
      DnsPeers(resolvers, peer);
      if i < at {
        assert rules[i] == DnsRule(resolvers);
      } else {
        assert rules[i] == more[i - at - |own|];
      }
    }
    assert SelectorsAt(rules, allowances, at);
  }

  lemma DnsPeers(resolvers: seq<Addr>, peer: Peer)
    ensures peer in DnsRule(resolvers).to ==> peer.IPBlock?
  {
  }

  lemma SelectorNeverAdmits(rule: Rule, k: Packet)
    requires |rule.to| == 1 && rule.to[0].Selector?
    ensures !RuleAdmits(rule, k)
  {
  }

  // ---------------------------------------------------------------------------
  // The allow list
  // ---------------------------------------------------------------------------

  predicate EntryOk(c: Config, a: Allow) {
    && PortsOk(a)
    && match BasesFor(c, a)
       case Malformed => false
       case Unresolved => true
       case Blocks(cidrs) => Parses(cidrs)
  }

  predicate SomeBaseGrants(reserved: seq<Cidr>, bases: seq<Cidr>, a: Addr) {
    exists b :: b in bases && BaseGrants(reserved, b, a)
  }

  /** The entry declares the packet: a base of it grants the address, and it names the port. */
  predicate EntryGrants(c: Config, reserved: seq<Cidr>, a: Allow, k: Packet) {
    && BasesFor(c, a).Blocks? && SomeBaseGrants(reserved, BasesFor(c, a).cidrs, k.addr)
    && DeclaresPort(a, k.protocol, k.port)
  }

  predicate SomeEntryGrants(c: Config, reserved: seq<Cidr>, allow: seq<Allow>, k: Packet) {
    exists a :: a in allow && EntryGrants(c, reserved, a, k)
  }

  /** No address answers for the entry. */
  predicate NotLocated(c: Config, a: Allow) {
    BasesFor(c, a).Unresolved? || BasesFor(c, a) == Blocks([])
  }

  predicate CoveredBase(reserved: seq<Cidr>, b: Cidr) {
    b.Text? && (InsideReserved(b.prefix, reserved) || !FamilyIn(reserved, Family4(Net(b.prefix))))
  }

  /** Every block of the entry is withheld by the reserved list. */
  predicate Withheld(c: Config, reserved: seq<Cidr>, a: Allow) {
    && BasesFor(c, a).Blocks? && BasesFor(c, a).cidrs != []
    && forall b :: b in BasesFor(c, a).cidrs ==> CoveredBase(reserved, b)
  }

  predicate SomePeerAdmits(peers: seq<Peer>, a: Addr) {
    exists p :: p in peers && BlockAdmits(p, a)
  }

  /** Blocks only, each with its except entries strictly inside. */
  predicate Nested(peers: seq<Peer>) {
    && (forall p :: p in peers ==> p.IPBlock?)
    && forall p, e :: p in peers && p.IPBlock? && e in p.except ==> Net(p.cidr) < Net(e)
  }

  predicate OnlyBlocks(rules: seq<Rule>) {
    forall rule, peer :: rule in rules && peer in rule.to ==> peer.IPBlock?
  }

  /** The peers of one entry: its bases, each less the reserved list, without the covered ones. */
  method PeersFor(bases: seq<Cidr>, reserved: seq<Cidr>) returns (r: Result<seq<Peer>>)
    ensures Parses(bases) && Parses(reserved) ==> r.Ok?
    ensures r.Ok? ==> Parses(bases) && Nested(r.value)
    ensures r.Err? ==> r.error == InvalidCIDR
    ensures r.Ok? ==> forall a :: SomePeerAdmits(r.value, a) <==> SomeBaseGrants(reserved, bases, a)
    ensures r.Ok? && Parses(reserved) ==> (r.value == [] <==> forall b :: b in bases ==> CoveredBase(reserved, b))
  {
    hide BlockAdmits, BaseGrants, InsideReserved, FamilyIn, Net, Family4;
    var peers := [];
    for i := 0 to |bases|
      invariant Parses(bases[..i]) && Nested(peers)
      invariant forall a :: SomePeerAdmits(peers, a) <==> SomeBaseGrants(reserved, bases[..i], a)
      invariant Parses(reserved) ==> (peers == [] <==> forall b :: b in bases[..i] ==> CoveredBase(reserved, b))
    {
      var b := bases[i];
      assert b in bases && bases[..i + 1] == bases[..i] + [b];
      var e := ExceptFor(b, reserved);
      if e.Err? {
        return Err(e.error);
      }
      forall a ensures SomeBaseGrants(reserved, bases[..i + 1], a) <==>
                       SomeBaseGrants(reserved, bases[..i], a) || BaseGrants(reserved, b, a) {
        assert b in bases[..i + 1];
      }
      assert b in bases[..i + 1];
      if e.value.Covered? {
        continue;
      }
      forall a ensures SomePeerAdmits(peers + [IPBlock(b.prefix, e.value.list)], a) <==>
                       SomePeerAdmits(peers, a) || BlockAdmits(IPBlock(b.prefix, e.value.list), a) {
        assert IPBlock(b.prefix, e.value.list) in peers + [IPBlock(b.prefix, e.value.list)];
      }
      var peer := IPBlock(b.prefix, e.value.list);
      peers := peers + [peer];
    }
    assert bases[..|bases|] == bases;
    return Ok(peers);
  }

  function RenderPorts(ports: seq<AllowPort>): seq<PolicyPort> {
    seq(|ports|, i requires 0 <= i < |ports| => RenderPort(ports[i]))
  }

  lemma EntryRule(peers: seq<Peer>, ports: seq<AllowPort>, k: Packet)
    requires peers != [] && ports != []
    ensures RuleAdmits(Rule(peers, RenderPorts(ports)), k) <==>
            SomePeerAdmits(peers, k.addr) && SomePortAdmits(ports, k.protocol, k.port)
  {
    hide BlockAdmits, PortAdmits, RenderPort;
    var rendered := RenderPorts(ports);
    if i :| 0 <= i < |ports| && PortAdmits(RenderPort(ports[i]), k.protocol, k.port) {
      assert rendered[i] in rendered && ports[i] in ports;
    }
  }

  /** What becomes of one entry. */
  datatype Outcome = NoAnswer | Suppress | Grant(rule: Rule)

  /** One entry: dropped as unresolved, dropped as suppressed, or one rule. */
  method CompileEntry(c: Config, a: Allow, reserved: seq<Cidr>) returns (r: Result<Outcome>)
    ensures Parses(reserved) ==> (r.Ok? <==> EntryOk(c, a))
    ensures r.Ok? ==> EntryOk(c, a)
    ensures r.Err? ==> r.error == if PortsOk(a) then InvalidCIDR else InvalidPorts
    ensures r.Ok? ==> (r.value.NoAnswer? <==> NotLocated(c, a))
    ensures r.Ok? && Parses(reserved) ==> (r.value.Suppress? <==> Withheld(c, reserved, a))
    ensures r.Ok? ==> forall k :: EntryGrants(c, reserved, a, k) <==> r.value.Grant? && RuleAdmits(r.value.rule, k)
    ensures r.Ok? && r.value.Grant? ==> WellNested([r.value.rule]) && OnlyBlocks([r.value.rule])
  {
    hide BlockAdmits, BaseGrants, DeclaresPort, CoveredBase, SomePortAdmits, DeclOk, RuleAdmits;
    hide RenderPorts, Net, PortsOk;
    var ports := PortsFor(a);
    if ports.Err? {
      return Err(ports.error);
    }
    var bases := BasesFor(c, a);
    if bases.Malformed? {
      return Err(InvalidCIDR);
    }
    if bases.Unresolved? || |bases.cidrs| == 0 {
      return Ok(NoAnswer);
    }
    var peers := PeersFor(bases.cidrs, reserved);
    if peers.Err? {
      return Err(peers.error);
    }
    if |peers.value| == 0 {
      return Ok(Suppress);
    }
    var rule := Rule(peers.value, RenderPorts(ports.value));
    forall k ensures EntryGrants(c, reserved, a, k) <==> RuleAdmits(rule, k) {
      EntryRule(peers.value, ports.value, k);
    }
    return Ok(Grant(rule));
  }

  /** The head rules, then one rule for each entry that grants anything; the rest is recorded. */
  method EgressAllowList(c: Config, allow: seq<Allow>, reserved: seq<Cidr>, head: seq<Rule>) returns (r: Result<Policy>)
    ensures r.Ok? ==> forall a :: a in allow ==> EntryOk(c, a)
    ensures r.Err? ==> r.error in {InvalidCIDR, InvalidPorts}
    ensures Parses(reserved) && (forall a :: a in allow ==> EntryOk(c, a)) ==> r.Ok?
    ensures r.Ok? ==>
              forall k :: Admits(r.value.egress, k) <==> Admits(head, k) || SomeEntryGrants(c, reserved, allow, k)
    ensures r.Ok? && WellNested(head) ==> WellNested(r.value.egress)
    ensures r.Ok? ==> head <= r.value.egress && OnlyBlocks(r.value.egress[|head|..])
    ensures r.Ok? ==> forall a :: a in r.value.unresolved <==> a in allow && NotLocated(c, a)
    ensures r.Ok? && Parses(reserved) ==>
              forall a :: a in r.value.suppressed <==> a in allow && Withheld(c, reserved, a)
    ensures r.Ok? ==> forall a :: a in r.value.suppressed ==>
                        a in allow && !NotLocated(c, a) && forall k :: !EntryGrants(c, reserved, a, k)
  {
    hide RuleAdmits, EntryGrants, EntryOk, Withheld, NotLocated, Net;
    var egress := head;
    ghost var more: seq<Rule> := [];
    var suppressed, unresolved: seq<Allow> := [], [];
    for i := 0 to |allow|
      invariant forall a :: a in allow[..i] ==> EntryOk(c, a)
      invariant forall k :: Admits(egress, k) <==> Admits(head, k) || SomeEntryGrants(c, reserved, allow[..i], k)
      invariant WellNested(head) ==> WellNested(egress)
      invariant egress == head + more && OnlyBlocks(more)
      invariant forall a :: a in unresolved <==> a in allow[..i] && NotLocated(c, a)
      invariant Parses(reserved) ==> forall a :: a in suppressed <==> a in allow[..i] && Withheld(c, reserved, a)
      invariant forall a :: a in suppressed ==>
                  a in allow && !NotLocated(c, a) && forall k :: !EntryGrants(c, reserved, a, k)
    {
      var a := allow[i];
      assert a in allow && allow[..i + 1] == allow[..i] + [a];
      var o := CompileEntry(c, a, reserved);
      if o.Err? {
        return Err(o.error);
      }
      match o.value
      case NoAnswer => unresolved := unresolved + [a];
      case Suppress => suppressed := suppressed + [a];
      case Grant(rule) =>
        AdmitsMore(egress, rule);
        BlocksMore(more, rule);
        egress := egress + [rule];
        more := more + [rule];
    }
    assert egress[|head|..] == more;
    assert allow[..|allow|] == allow;
    return Ok(Policy(egress, suppressed, unresolved));
  }

  lemma BlocksMore(rules: seq<Rule>, rule: Rule)
    requires OnlyBlocks(rules) && OnlyBlocks([rule])
    ensures OnlyBlocks(rules + [rule])
  {
    assert rule in [rule];
  }

  lemma AdmitsMore(rules: seq<Rule>, rule: Rule)
    ensures forall k :: Admits(rules + [rule], k) <==> Admits(rules, k) || RuleAdmits(rule, k)
    ensures WellNested(rules) && WellNested([rule]) ==> WellNested(rules + [rule])
  {
    hide RuleAdmits, Net;
    forall k ensures Admits(rules + [rule], k) <==> Admits(rules, k) || RuleAdmits(rule, k) {
      assert rule in rules + [rule];
      assert forall r :: r in rules ==> r in rules + [rule];
    }
    if WellNested(rules) && WellNested([rule]) {
      assert rule in [rule];
    }
  }

  // ---------------------------------------------------------------------------
  // External-only, and the whole compiler
  // ---------------------------------------------------------------------------

  const ALL_V4: Cidr := Text(Prefix([0, 0, 0, 0], 0))

  /** Every public IPv4 address on every port, after the head rules. */
  method CompileExternalOnly(reserved: seq<Cidr>, head: seq<Rule>) returns (r: Result<Policy>)
    ensures Parses(reserved) ==> r.Ok?
    ensures r.Err? ==> r.error == InvalidCIDR
    ensures r.Ok? ==> r.value.unresolved == [] && r.value.suppressed == []
    ensures r.Ok? ==> forall k :: Admits(r.value.egress, k) <==> Admits(head, k) || BaseGrants(reserved, ALL_V4, k.addr)
    ensures r.Ok? && WellNested(head) ==> WellNested(r.value.egress)
    ensures r.Ok? ==> head <= r.value.egress && OnlyBlocks(r.value.egress[|head|..])
  {
    hide Net, BaseGrants, BlockAdmits, Admits;
    var e := ExceptFor(ALL_V4, reserved);
    if e.Err? {
      return Err(e.error);
    }
    if e.value.Covered? {
      return Ok(Policy(head, [], []));
    }
    var peer := IPBlock(ALL_V4.prefix, e.value.list);
    var rule := Rule([peer], []);
    forall k ensures RuleAdmits(rule, k) <==> BaseGrants(reserved, ALL_V4, k.addr) {
      assert peer in rule.to;
    }
    AdmitsMore(head, rule);
    assert (head + [rule])[|head|..] == [rule];
    return Ok(Policy(head + [rule], [], []));
  }

  function ExemptOf(class_: Option<Class>): seq<Cidr> {
    if class_.None? then [] else class_.value.exempt
  }

  /** Base minus what stays reserved, when its family keeps a reserved block. */
  ghost predicate Reaches(c: Config, exempt: seq<Cidr>, base: Cidr, a: Addr)
    requires Parses(exempt)
  {
    && base.Text? && Contains(base.prefix, a)
    && !LeftReserved(c.reserved, exempt, a)
    && FamilyKept(c.reserved, exempt, Family4(Net(base.prefix)))
  }

  /** The resolver passes the test of the effective list: a zone stays, or its unmapped address is not reserved. */
  predicate Passes(reserved: seq<Cidr>, exempt: seq<Cidr>, ip: Resolver) {
    KeepsZone(ip) || !LeftReserved(reserved, exempt, Unmap(ip.addr))
  }

  /** A DNS query to the address of a configured resolver that passes. */
  predicate DnsDeclared(c: Config, exempt: seq<Cidr>, k: Packet) {
    DnsPacket(k) && exists ip: Resolver :: ip in c.resolvers && ip.addr == k.addr && Passes(c.reserved, exempt, ip)
  }

  /** Base b of entry a reaches the address, and the entry declares the port. */
  ghost predicate EntryReaches(c: Config, exempt: seq<Cidr>, a: Allow, b: Cidr, k: Packet)
    requires Parses(exempt)
  {
    && BasesFor(c, a).Blocks? && b in BasesFor(c, a).cidrs
    && Reaches(c, exempt, b, k.addr) && DeclaresPort(a, k.protocol, k.port)
  }

  /** The posture, rather than DNS, declares the packet. */
  ghost predicate ModeDeclares(c: Config, exempt: seq<Cidr>, posture: Network, k: Packet)
    requires Parses(exempt)
  {
    match posture.mode
    case ExternalOnly => Reaches(c, exempt, ALL_V4, k.addr)
    case AllowList => exists a, b :: a in posture.allow && EntryReaches(c, exempt, a, b, k)
    case _ => false
  }

  /** What the declarations admit, with no mention of rules. */
  ghost predicate Declared(c: Config, exempt: seq<Cidr>, posture: Network, k: Packet)
    requires Parses(exempt)
  {
    posture.mode != NoNetwork && (DnsDeclared(c, exempt, k) || ModeDeclares(c, exempt, posture, k))
  }

  /** The inputs for which the compiler returns a policy. */
  ghost predicate Compiles(c: Config, posture: Network, class_: Option<Class>) {
    var exempt := if class_.None? then [] else class_.value.exempt;
    && (exempt != [] ==> Parses(exempt) && Parses(c.reserved))
    && (posture.mode == NoNetwork ||
        (&& (posture.mode == ExternalOnly || posture.mode == AllowList)
         && Parses(c.reserved)
         && (forall ip :: ip in c.resolvers ==> !ip.BadIp?)
         && (|| c.resolvers == []
             || (class_.Some? &&
                 exists s, p :: s in class_.value.allowances && p in s.ports && p.port == IntPort(53))
             || exists ip :: ip in c.resolvers && !ip.BadIp? && Passes(c.reserved, exempt, ip))
         && (posture.mode == AllowList ==> forall a :: a in posture.allow ==> EntryOk(c, a))))
  }

  /** The entries on record as unresolved are those without an address; the suppressed ones have one and reach none. */
  ghost predicate Records(c: Config, exempt: seq<Cidr>, allow: seq<Allow>, policy: Policy)
    requires Parses(exempt)
  {
    && (forall a :: a in policy.unresolved <==> a in allow && NotLocated(c, a))
    && (forall a :: a in policy.suppressed ==>
          a in allow && !NotLocated(c, a) && forall b, k :: !EntryReaches(c, exempt, a, b, k))
  }

  /**
   The result enforces the posture: a policy exactly when it compiles, which admits
   exactly the declared packets, nests every except entry strictly in its block, and
   renders the selectors of the class; without a network it has no rule at all.
   */
  ghost predicate Enforces(c: Config, posture: Network, class_: Option<Class>, r: Result<Policy>) {
    var exempt := if class_.None? then [] else class_.value.exempt;
    && (r.Ok? <==> Compiles(c, posture, class_))
    && (r.Ok? ==>
          && Parses(exempt) && WellNested(r.value.egress)
          && (forall k :: Admits(r.value.egress, k) <==> Declared(c, exempt, posture, k))
          && (posture.mode == AllowList ==> Records(c, exempt, posture.allow, r.value))
          && (posture.mode != AllowList ==> r.value.unresolved == [] && r.value.suppressed == [])
          && (if posture.mode == NoNetwork then r.value.egress == []
              else SelectorsOf(r.value.egress, if class_.None? then [] else class_.value.allowances)))
  }

  /**
   The compiler. `sandbox` is None for a nil Sandbox and Some(network) for one
   with that network block. A block of the Sandbox wins over the class, whatever it
   says; else the default of the class does, unless it is empty; else there is no
   network.
   */
  method Generate(c: Config, sandbox: Option<Option<Network>>, class_: Option<Class>) returns (r: Result<Policy>)
    ensures sandbox.None? <==> r == Err(NilSandbox)
    ensures sandbox.Some? && sandbox.value.Some? ==> Enforces(c, sandbox.value.value, class_, r)
    ensures sandbox == Some(None) ==>
              if class_.Some? && class_.value.defaultNetwork.mode != EmptyMode
              then Enforces(c, class_.value.defaultNetwork, class_, r)
              else Enforces(c, Network(NoNetwork, []), class_, r)
  {
    if sandbox.None? {
      return Err(NilSandbox);
    }
    r := Compile(c, EffectivePosture(sandbox.value, class_), class_);
  }

  /** The rules of a posture. */
  method Compile(c: Config, posture: Network, class_: Option<Class>) returns (r: Result<Policy>)
    ensures Enforces(c, posture, class_, r) && r != Err(NilSandbox)
  {
    hide Net, Admits, LeftReserved, InList, FamilyIn, FamilyKept, DnsDeclared, ModeDeclares, BaseGrants;
    hide SomeEntryGrants, EntryOk, ResolversOk, HeadRules, WellNested, KeptResolvers, Untouched, SelectorsOf;
    hide NotLocated, EntryGrants, Withheld, Records;
    var exempt := ExemptOf(class_);
    var s := SubtractExempt(c.reserved, exempt);
    if s.Invalid? {
      return Err(InvalidCIDR);
    }
    var reserved := s.cidrs;
    if posture.mode == NoNetwork {
      NoRules();
      return Ok(Policy([], [], []));
    }
    ResolversDeclared(c, class_, exempt, reserved);
    var resolvers := ResolverSplit(c, class_, reserved);
    if resolvers.Err? {
      return Err(resolvers.error);
    }
    var head := HeadRules(class_, Addrs(resolvers.value.ipBlock));
    HeadDeclares(c, class_, exempt, reserved);
    match posture.mode
    case ExternalOnly =>
      ExternalDeclares(c, exempt, reserved, posture);
      r := CompileExternalOnly(reserved, head);
      if r.Ok? {
        RenderedSelectors(class_, Addrs(resolvers.value.ipBlock), r.value.egress);
      }
    case AllowList =>
      AllowListDeclares(c, exempt, reserved, posture);
      r := EgressAllowList(c, posture.allow, reserved, head);
      if r.Ok? {
        SuppressedReachNothing(c, exempt, reserved, posture.allow, r.value);
        RenderedSelectors(class_, Addrs(resolvers.value.ipBlock), r.value.egress);
      }
    case _ =>
      r := Err(UnknownModeError);
  }

  lemma RenderedSelectors(class_: Option<Class>, resolvers: seq<Addr>, egress: seq<Rule>)
    requires HeadRules(class_, resolvers) <= egress && OnlyBlocks(egress[|HeadRules(class_, resolvers)|..])
    ensures SelectorsOf(egress, AllowancesOf(class_))
  {
    hide HeadRules, SelectorsOf;
    var head := HeadRules(class_, resolvers);
    HeadSelectors(class_, resolvers, egress[|head|..]);
    assert egress == head + egress[|head|..];
  }

  lemma NoRules()
    ensures WellNested([]) && forall k :: !Admits([], k)
  {
  }

  /** The effective list is the reserved list less the exemptions. */
  ghost predicate IsEffective(c: Config, exempt: seq<Cidr>, reserved: seq<Cidr>) {
    && Parses(exempt)
    && (forall a :: InList(reserved, a) <==> LeftReserved(c.reserved, exempt, a))
    && (forall v4 :: FamilyIn(reserved, v4) <==> FamilyKept(c.reserved, exempt, v4))
  }

  lemma ResolversDeclared(c: Config, class_: Option<Class>, exempt: seq<Cidr>, reserved: seq<Cidr>)
    requires IsEffective(c, exempt, reserved)
    ensures ResolversOk(c, class_, reserved) <==>
            && (forall ip :: ip in c.resolvers ==> !ip.BadIp?)
            && (c.resolvers == [] || ClassGrantsDNS(class_) ||
                exists ip :: ip in c.resolvers && !ip.BadIp? && Passes(c.reserved, exempt, ip))
  {
    hide InList, LeftReserved, Unmap, ClassGrantsDNS, FamilyIn, FamilyKept;
  }

  lemma HeadDeclares(c: Config, class_: Option<Class>, exempt: seq<Cidr>, reserved: seq<Cidr>)
    requires IsEffective(c, exempt, reserved)
    ensures var head := HeadRules(class_, Addrs(KeptResolvers(c.resolvers, reserved, false)));
            WellNested(head) && forall k :: Admits(head, k) <==> DnsDeclared(c, exempt, k)
  {
    hide InList, LeftReserved, Unmap, Admits, HeadRules, WellNested, DnsPacket, FamilyIn, FamilyKept;
    var kept := KeptResolvers(c.resolvers, reserved, false);
    HeadAdmits(class_, Addrs(kept), Packet([0, 0, 0, 0], UDP, 53));
    forall k ensures Admits(HeadRules(class_, Addrs(kept)), k) <==> DnsDeclared(c, exempt, k) {
      HeadAdmits(class_, Addrs(kept), k);
      AddrsMembers(kept, k.addr);
      forall ip: Resolver ensures ip in kept <==> ip in c.resolvers && Passes(c.reserved, exempt, ip) {
        KeptMembers(c.resolvers, reserved, false, ip);
      }
    }
  }

  lemma ExternalDeclares(c: Config, exempt: seq<Cidr>, reserved: seq<Cidr>, posture: Network)
    requires IsEffective(c, exempt, reserved) && posture.mode == ExternalOnly
    ensures forall k: Packet :: BaseGrants(reserved, ALL_V4, k.addr) <==> ModeDeclares(c, exempt, posture, k)
  {
    hide Net, InList, LeftReserved, FamilyIn, FamilyKept, Contains;
  }

  lemma AllowListDeclares(c: Config, exempt: seq<Cidr>, reserved: seq<Cidr>, posture: Network)
    requires IsEffective(c, exempt, reserved) && posture.mode == AllowList
    ensures forall k :: SomeEntryGrants(c, reserved, posture.allow, k) <==> ModeDeclares(c, exempt, posture, k)
  {
    hide InList, LeftReserved, FamilyIn, FamilyKept, SomeEntryGrants, ModeDeclares;
    forall k ensures SomeEntryGrants(c, reserved, posture.allow, k) <==> ModeDeclares(c, exempt, posture, k) {
      AllowDeclares(c, exempt, reserved, posture, k);
    }
  }

  lemma SuppressedReachNothing(c: Config, exempt: seq<Cidr>, reserved: seq<Cidr>, allow: seq<Allow>, policy: Policy)
    requires IsEffective(c, exempt, reserved)
    requires forall a :: a in policy.unresolved <==> a in allow && NotLocated(c, a)
    requires forall a :: a in policy.suppressed ==>
               a in allow && !NotLocated(c, a) && forall k :: !EntryGrants(c, reserved, a, k)
    ensures Records(c, exempt, allow, policy)
  {
    hide Net, InList, LeftReserved, FamilyIn, FamilyKept, Contains, BasesFor, DeclaresPort, NotLocated;
    forall a, b, k | a in policy.suppressed ensures !EntryReaches(c, exempt, a, b, k) {
      assert !EntryGrants(c, reserved, a, k);
      assert EntryReaches(c, exempt, a, b, k) ==> BaseGrants(reserved, b, k.addr);
    }
  }

  lemma AllowDeclares(c: Config, exempt: seq<Cidr>, reserved: seq<Cidr>, posture: Network, k: Packet)
    requires IsEffective(c, exempt, reserved) && posture.mode == AllowList
    ensures SomeEntryGrants(c, reserved, posture.allow, k) <==> ModeDeclares(c, exempt, posture, k)
  {
    hide Net, InList, LeftReserved, FamilyIn, FamilyKept, Contains, BasesFor, DeclaresPort;
    if SomeEntryGrants(c, reserved, posture.allow, k) {
      var a :| a in posture.allow && EntryGrants(c, reserved, a, k);
      var b :| b in BasesFor(c, a).cidrs && BaseGrants(reserved, b, k.addr);
      assert EntryReaches(c, exempt, a, b, k);
    }
    if ModeDeclares(c, exempt, posture, k) {
      var a, b :| a in posture.allow && EntryReaches(c, exempt, a, b, k);
      assert BaseGrants(reserved, b, k.addr);
      assert EntryGrants(c, reserved, a, k);
    }
  }

  // ---------------------------------------------------------------------------
  // What the compiled postures guarantee
  // ---------------------------------------------------------------------------

  /**
   No declared packet goes to an address that stays reserved, exactly when every
   configured resolver whose address does is written without a zone that Unmap
   keeps, and its unmapped address stays reserved, too.
   */
  lemma ReservedNeverAdmitted(c: Config, exempt: seq<Cidr>, posture: Network)
    requires Parses(exempt) && posture.mode != NoNetwork
    ensures (forall k :: Declared(c, exempt, posture, k) ==> !LeftReserved(c.reserved, exempt, k.addr)) <==>
            (forall ip: Resolver :: ip in c.resolvers && LeftReserved(c.reserved, exempt, ip.addr) ==>
               (ip.Ip? || Mapped(ip.addr)) && LeftReserved(c.reserved, exempt, Unmap(ip.addr)))
  {
    hide LeftReserved, Unmap, Mapped, FamilyKept, Net, Contains, DeclaresPort, BasesFor;
    if forall k :: Declared(c, exempt, posture, k) ==> !LeftReserved(c.reserved, exempt, k.addr) {
      forall ip: Resolver | ip in c.resolvers && LeftReserved(c.reserved, exempt, ip.addr)
        ensures !Passes(c.reserved, exempt, ip)
      {
        var k := Packet(ip.addr, UDP, 53);
        assert !Declared(c, exempt, posture, k);
      }
    }
  }

  // ---------------------------------------------------------------------------
  // Configurations in which a promise fails
  // ---------------------------------------------------------------------------

  datatype ConfigError = NoReservedCIDRs | BadReserved | NoReservedIPv4 | NoReservedIPv6 | NoResolvers | BadResolver

  /** A prefix is spelled with an address of the family. */
  predicate SpelledIn(cs: seq<Cidr>, v4: bool) {
    exists c :: c in cs && c.Text? && Is4(Unmap(c.prefix.addr)) == v4
  }

  /** What the operator accepts at startup: a reserved prefix spelled in each family, and a resolver. */
  predicate Validates(c: Config) {
    && Parses(c.reserved) && SpelledIn(c.reserved, true) && SpelledIn(c.reserved, false)
    && c.resolvers != [] && forall ip :: ip in c.resolvers ==> !ip.BadIp?
  }

  method Validate(c: Config) returns (r: Option<ConfigError>)
    ensures r.None? <==> Validates(c)
    ensures r == Some(NoReservedCIDRs) <==> c.reserved == []
    ensures r == Some(BadReserved) <==> exists p :: p in c.reserved && p.Bad?
    ensures r == Some(NoReservedIPv4) ==> forall p :: p in c.reserved ==> p.Text? && |Unmap(p.prefix.addr)| == 16
    ensures r == Some(NoReservedIPv6) ==> forall p :: p in c.reserved ==> p.Text? && |Unmap(p.prefix.addr)| == 4
    ensures r == Some(NoResolvers) ==> c.resolvers == []
    ensures r == Some(BadResolver) ==> exists ip :: ip in c.resolvers && ip.BadIp?
    ensures r.None? ==>
              && (exists p :: p in c.reserved && p.Text? && |Unmap(p.prefix.addr)| == 4)
              && (exists p :: p in c.reserved && p.Text? && |Unmap(p.prefix.addr)| == 16)
              && c.resolvers != [] && forall ip :: ip in c.resolvers ==> !ip.BadIp?
  {
    hide SpelledIn, Unmap;
    NotSpelled();
    SpelledMeans(c.reserved);
    if |c.reserved| == 0 {
      return Some(NoReservedCIDRs);
    }
    var has4, has6 := false, false;
    for i := 0 to |c.reserved|
      invariant Parses(c.reserved[..i])
      invariant has4 == SpelledIn(c.reserved[..i], true) && has6 == SpelledIn(c.reserved[..i], false)
    {
      var cidr := c.reserved[i];
      assert cidr in c.reserved && c.reserved[..i + 1] == c.reserved[..i] + [cidr];
      if cidr.Bad? {
        return Some(BadReserved);
      }
      SpelledMore(c.reserved[..i], cidr);
      if Is4(Unmap(cidr.prefix.addr)) {
        has4 := true;
      } else {
        has6 := true;
      }
    }
    assert c.reserved[..|c.reserved|] == c.reserved;
    if !has4 {
      return Some(NoReservedIPv4);
    }
    if !has6 {
      return Some(NoReservedIPv6);
    }
    if |c.resolvers| == 0 {
      return Some(NoResolvers);
    }
    for i := 0 to |c.resolvers|
      invariant forall ip :: ip in c.resolvers[..i] ==> !ip.BadIp?
    {
      assert c.resolvers[i] in c.resolvers;
      if c.resolvers[i].BadIp? {
        return Some(BadResolver);
      }
    }
    return None;
  }

  lemma SpelledMeans(cs: seq<Cidr>)
    ensures SpelledIn(cs, true) <==> exists p :: p in cs && p.Text? && |Unmap(p.prefix.addr)| == 4
    ensures SpelledIn(cs, false) <==> exists p :: p in cs && p.Text? && |Unmap(p.prefix.addr)| == 16
  {
    hide Unmap;
  }

  lemma NotSpelled()
    ensures !SpelledIn([], true) && !SpelledIn([], false)
  {
  }

  lemma SpelledMore(cs: seq<Cidr>, c: Cidr)
    requires c.Text?
    ensures forall v4 :: SpelledIn(cs + [c], v4) <==> SpelledIn(cs, v4) || Is4(Unmap(c.prefix.addr)) == v4
  {
    hide Unmap;
    forall v4 ensures SpelledIn(cs + [c], v4) <==> SpelledIn(cs, v4) || Is4(Unmap(c.prefix.addr)) == v4 {
      assert c in cs + [c];
    }
  }

  /** A prefix holds an address that agrees with it in every byte the prefix reaches into. */
  lemma SameBytes(p: Prefix, a: Addr)
    requires |p.addr| == |a| && forall j :: 0 <= j < |a| && 8 * j < p.bits ==> p.addr[j] == a[j]
    ensures Contains(p, a)
  {
    hide Contains, Bit;
    ContainsNets(p, a);
    forall i | 0 <= i < p.bits ensures BitsOf(p.addr)[i] == BitsOf(a)[i] {
    }
  }

  /** An address is in a single-address block only if it is that address. */
  lemma HostContains(r: Addr, a: Addr)
    ensures Contains(Prefix(r, BitLen(r)), a) <==> a == r
  {
    HostPeerAdmits(r, a);
  }

  const LOOPBACK: Cidr := Text(Prefix([127, 0, 0, 1], 32))
  const EXTERNAL := Network(ExternalOnly, [])

  lemma TwoBlocks(c4: Cidr, c6: Cidr, a: Addr)
    requires c4.Text? && c6.Text?
    ensures Parses([c4, c6])
    ensures InList([c4, c6], a) <==> Contains(c4.prefix, a) || Contains(c6.prefix, a)
  {
    hide Contains;
    assert c4 in [c4, c6] && c6 in [c4, c6];
  }

  /** A reserved block of each family and one resolver are a valid configuration; it compiles if the resolver passes. */
  lemma OneResolver(c: Config, c4: Cidr, c6: Cidr, ip: Resolver)
    requires c4.Text? && c6.Text? && c.reserved == [c4, c6] && c.resolvers == [ip]
    requires Is4(Unmap(c4.prefix.addr)) && !Is4(Unmap(c6.prefix.addr))
    ensures Validates(c)
    ensures Passes(c.reserved, [], ip) ==>
              Compiles(c, EXTERNAL, None) && Declared(c, [], EXTERNAL, Packet(ip.addr, UDP, 53))
  {
    hide Contains, LeftReserved, Unmap, KeepsZone, FamilyKept;
    assert c4 in c.reserved && c6 in c.reserved && ip in c.resolvers;
  }

  const LINK_LOCAL: Addr := [0xFE, 0x80, 0, 0, 0, 0, 0, 0, 0, 0, 0, 0, 0, 0, 0, 0]
  const ROUTER: Addr := [0xFE, 0x80, 0, 0, 0, 0, 0, 0, 0, 0, 0, 0, 0, 0, 0, 1]
  const ZERO6: Addr := [0, 0, 0, 0, 0, 0, 0, 0, 0, 0, 0, 0, 0, 0, 0, 0]
  const ONE6: Addr := [0, 0, 0, 0, 0, 0, 0, 0, 0, 0, 0, 0, 0, 0, 0, 1]
  const MAPPED_EIGHTS: Addr := [0, 0, 0, 0, 0, 0, 0, 0, 0, 0, 0xFF, 0xFF, 8, 8, 8, 8]
  const EIGHTS: Addr := [8, 8, 8, 8]

  lemma NotMapped()
    ensures !Mapped(LINK_LOCAL) && !Mapped(ROUTER) && !Mapped(ZERO6) && !Mapped(ONE6)
    ensures Mapped(MAPPED_EIGHTS) && Unmap(MAPPED_EIGHTS) == EIGHTS
    ensures Unmap(LOOPBACK.prefix.addr) == LOOPBACK.prefix.addr
  {
    assert LINK_LOCAL[..12][0] != MAPPED_LEAD[0] && ROUTER[..12][0] != MAPPED_LEAD[0];
    assert ZERO6[..12][10] != MAPPED_LEAD[10] && ONE6[..12][10] != MAPPED_LEAD[10];
    assert MAPPED_EIGHTS[..12] == MAPPED_LEAD;
  }

  /** The resolver fe80::1 with a zone, and fe80::/10 reserved: the zone hides it from the test; the rule drops it. */
  lemma ZonedResolverInstance()
    ensures var local := Text(Prefix(LINK_LOCAL, 10));
            var c := Config([LOOPBACK, local], [Zoned(ROUTER)], _ => None);
            && Validates(c) && Compiles(c, EXTERNAL, None)
            && Declared(c, [], EXTERNAL, Packet(ROUTER, UDP, 53)) && LeftReserved(c.reserved, [], ROUTER)
  {
    hide Contains, Mapped, Compiles, Declared, Validates;
    NotMapped();
    var local := Text(Prefix(LINK_LOCAL, 10));
    SameBytes(local.prefix, ROUTER);
    TwoBlocks(LOOPBACK, local, ROUTER);
    OneResolver(Config([LOOPBACK, local], [Zoned(ROUTER)], _ => None), LOOPBACK, local, Zoned(ROUTER));
  }

  /** The resolver ::ffff:8.8.8.8, and ::/0 reserved: it is reserved as written and not as unmapped. */
  lemma MappedResolverInstance()
    ensures var all6 := Text(Prefix(ZERO6, 0));
            var c := Config([LOOPBACK, all6], [Ip(MAPPED_EIGHTS)], _ => None);
            && Validates(c) && Compiles(c, EXTERNAL, None)
            && Declared(c, [], EXTERNAL, Packet(MAPPED_EIGHTS, UDP, 53)) && LeftReserved(c.reserved, [], MAPPED_EIGHTS)
  {
    hide SameLead, Mapped, Compiles, Declared, Validates;
    NotMapped();
    var all6 := Text(Prefix(ZERO6, 0));
    SameBytes(all6.prefix, MAPPED_EIGHTS);
    HostContains(LOOPBACK.prefix.addr, EIGHTS);
    TwoBlocks(LOOPBACK, all6, MAPPED_EIGHTS);
    TwoBlocks(LOOPBACK, all6, EIGHTS);
    OneResolver(Config([LOOPBACK, all6], [Ip(MAPPED_EIGHTS)], _ => None), LOOPBACK, all6, Ip(MAPPED_EIGHTS));
  }

  /** The family of a block that holds an address which is not IPv4-mapped is the family of the address. */
  lemma FamilyOfAddress(p: Prefix, a: Addr)
    requires Contains(p, a) && !Mapped(a)
    ensures Family4(Net(p)) == Is4(a)
  {
    hide BitsOf, Contains;
    ContainsNets(p, a);
    MappedPath(a);
    assert Net(p)[0] == AddrPath(a)[0];
    assert MappedBlock() <= Net(p) ==> MappedBlock() <= AddrPath(a);
  }

  /**
   More exemptions keep a packet declared exactly while the family of its
   address keeps a reserved block.
   */
  lemma WideningExact(c: Config, exempt: seq<Cidr>, more: seq<Cidr>, posture: Network, k: Packet)
    requires Parses(exempt) && Parses(more) && forall e :: e in exempt ==> e in more
    requires !Mapped(k.addr) && ModeDeclares(c, exempt, posture, k)
    ensures ModeDeclares(c, more, posture, k) <==> FamilyKept(c.reserved, more, Is4(k.addr))
  {
    hide Net, Contains, FamilyKept, Mapped, Family4, BasesFor, DeclaresPort;
    assert InList(exempt, k.addr) ==> InList(more, k.addr);
    forall b: Cidr | b.Text? && Contains(b.prefix, k.addr) ensures Family4(Net(b.prefix)) == Is4(k.addr) {
      FamilyOfAddress(b.prefix, k.addr);
    }
    if posture.mode == AllowList {
      var a, b :| a in posture.allow && EntryReaches(c, exempt, a, b, k);
      assert EntryReaches(c, more, a, b, k) <==> FamilyKept(c.reserved, more, Is4(k.addr));
    }
  }

  /** While both families keep a reserved block, a larger exemption list admits a superset. */
  lemma ExemptionsWiden(c: Config, exempt: seq<Cidr>, more: seq<Cidr>, posture: Network, k: Packet)
    requires Parses(exempt) && Parses(more) && forall e :: e in exempt ==> e in more
    requires FamilyKept(c.reserved, more, true) && FamilyKept(c.reserved, more, false)
    requires Declared(c, exempt, posture, k)
    ensures Declared(c, more, posture, k)
  {
    hide Net, Contains, FamilyKept, Family4, BasesFor, DeclaresPort, DnsPacket, Unmap;
    forall a ensures InList(exempt, a) ==> InList(more, a) {
    }
    if !DnsDeclared(c, exempt, k) && posture.mode == AllowList {
      var a, b :| a in posture.allow && EntryReaches(c, exempt, a, b, k);
      assert EntryReaches(c, more, a, b, k);
    }
  }

  /** Once the last reserved block of a family is exempt, no block of that family reaches anything. */
  lemma FamilyWithdrawn(c: Config, exempt: seq<Cidr>, posture: Network, k: Packet)
    requires Parses(exempt) && !Mapped(k.addr) && !FamilyKept(c.reserved, exempt, Is4(k.addr))
    ensures !ModeDeclares(c, exempt, posture, k)
  {
    hide Net, Contains, FamilyKept, Mapped, Family4, BasesFor, DeclaresPort;
    forall b: Cidr | b.Text? && Contains(b.prefix, k.addr) ensures Family4(Net(b.prefix)) == Is4(k.addr) {
      FamilyOfAddress(b.prefix, k.addr);
    }
  }

  /** A block that is itself exempt leaves nothing. */
  lemma ExemptWhole(p: Prefix, q: Path)
    ensures !Canonical(q, Net(p), CidrNets([Text(p)]))
  {
    hide Net, Canonical;
    var holes := CidrNets([Text(p)]);
    RemainderCanonical(Net(p), holes, q);
    assert holes == [Net(p)] && holes[..0] == [];
    assert Remainder(Net(p), []) == [Net(p)];
    assert CutAll([], Net(p)) == [];
  }

  /** An instance: with 127.0.0.1 the one reserved IPv4 block 8.8.8.8 is reachable, and exempting it withdraws that. */
  lemma WithdrawnInstance()
    ensures var local6 := Text(Prefix(ONE6, 128));
            var c := Config([LOOPBACK, local6], [Ip(EIGHTS)], _ => None);
            var class_ := Class([LOOPBACK], [], Network(EmptyMode, []));
            var k := Packet(EIGHTS, TCP, 443);
            && Validates(c) && Compiles(c, EXTERNAL, None) && Compiles(c, EXTERNAL, Some(class_))
            && Declared(c, [], EXTERNAL, k) && !Declared(c, class_.exempt, EXTERNAL, k)
  {
    hide Contains, Mapped, FamilyKept, Net, Family4, Validates;
    NotMapped();
    var local6 := Text(Prefix(ONE6, 128));
    var reserved := [LOOPBACK, local6];
    var c := Config(reserved, [Ip(EIGHTS)], _ => None);
    TwoBlocks(LOOPBACK, local6, EIGHTS);
    HostContains(LOOPBACK.prefix.addr, EIGHTS);
    HostContains(ONE6, EIGHTS);
    SameBytes(ALL_V4.prefix, EIGHTS);
    Unmap4(EIGHTS);
    OneResolver(c, LOOPBACK, local6, Ip(EIGHTS));
    V4Kept(reserved, LOOPBACK);
    NoV4Left(local6);
    AllV4Family();
    assert Ip(EIGHTS) in c.resolvers;
  }

  lemma Unmap4(a: Addr)
    requires Is4(a)
    ensures Unmap(a) == a
  {
  }

  lemma AllV4Family()
    ensures Family4(Net(ALL_V4.prefix))
  {
  }

  lemma V4Kept(cs: seq<Cidr>, c: Cidr)
    requires c in cs && c.Text? && Is4(c.prefix.addr)
    ensures FamilyKept(cs, [], true)
  {
    hide FamilyKept;
    assert FamilyIn(cs, true);
    FamilyWithoutExemptions(cs, true);
  }

  /** With the loopback block exempt, only the IPv6 block is left. */
  lemma NoV4Left(c6: Cidr)
    requires c6 == Text(Prefix(ONE6, 128))
    ensures !FamilyKept([LOOPBACK, c6], [LOOPBACK], true)
  {
    hide Net, Canonical, Family4;
    var holes := CidrNets([LOOPBACK]);
    forall c, q | c in [LOOPBACK, c6] && c.Text? && Canonical(q, Net(c.prefix), holes)
      ensures Block(q) && !Family4(q)
    {
      if c == LOOPBACK {
        ExemptWhole(LOOPBACK.prefix, q);
      } else {
        RemainderCanonical(Net(c6.prefix), holes, q);
        RemainderMaximal(Net(c6.prefix), holes, q);
        MaximalIsBlock(q, Net(c6.prefix), holes);
        BelowHost(q);
      }
    }
  }

  /** A block inside a single address is that address, and ::1 is not IPv4-mapped. */
  lemma BelowHost(q: Path)
    requires Block(q) && Net(Prefix(ONE6, 128)) <= q
    ensures !Family4(q)
  {
    hide BitsOf, Mapped;
    NotMapped();
    assert q == Net(Prefix(ONE6, 128)) == AddrPath(ONE6);
    MappedPath(ONE6);
  }

  /** With no reserved block on the IPv4-mapped one, a family is kept exactly when an address of it stays reserved. */
  lemma FamilyKeptIffAddress(reserved: seq<Cidr>, exempt: seq<Cidr>, v4: bool)
    requires Parses(reserved) && Parses(exempt)
    requires forall c :: c in reserved ==> !Comparable(Net(c.prefix), MappedBlock())
    ensures FamilyKept(reserved, exempt, v4) <==> exists a :: Is4(a) == v4 && LeftReserved(reserved, exempt, a)
  {
    if FamilyKept(reserved, exempt, v4) {
      AddressOfFamily(reserved, exempt, v4);
    }
    if a :| Is4(a) == v4 && LeftReserved(reserved, exempt, a) {
      FamilyOfLeft(reserved, exempt, a);
    }
  }

  lemma AddressOfFamily(reserved: seq<Cidr>, exempt: seq<Cidr>, v4: bool)
    requires Parses(reserved) && Parses(exempt) && FamilyKept(reserved, exempt, v4)
    requires forall c :: c in reserved ==> !Comparable(Net(c.prefix), MappedBlock())
    ensures exists a :: Is4(a) == v4 && LeftReserved(reserved, exempt, a)
  {
    hide Net, AddrPath, Contains, MappedBlock;
    var holes := CidrNets(exempt);
    var c, q :| c in reserved && c.Text? && Canonical(q, Net(c.prefix), holes) && Family4(q) == v4;
    var leaf := FirstLeaf(q);
    var a := LeafAddr(leaf);
    assert Wanted(leaf, Net(c.prefix), holes);
    CommonAddress(Net(c.prefix), MappedBlock(), leaf);
    assert MappedBlock() <= q ==> MappedBlock() <= leaf;
    ContainsNets(c.prefix, a);
    InListNets(exempt, a);
    assert AddrPath(a)[0] == Is4(a) by { AddrPathHead(a); }
    assert LeftReserved(reserved, exempt, a);
  }

  lemma AddrPathHead(a: Addr)
    ensures AddrPath(a)[0] == Is4(a)
  {
  }

  lemma FamilyOfLeft(reserved: seq<Cidr>, exempt: seq<Cidr>, a: Addr)
    requires Parses(reserved) && Parses(exempt) && LeftReserved(reserved, exempt, a)
    requires forall c :: c in reserved ==> !Comparable(Net(c.prefix), MappedBlock())
    ensures FamilyKept(reserved, exempt, Is4(a))
  {
    hide Net, AddrPath, Contains, MappedBlock, Remainder;
    var holes := CidrNets(exempt);
    var c :| c in reserved && c.Text? && Contains(c.prefix, a);
    ContainsNets(c.prefix, a);
    InListNets(exempt, a);
    RemainderExact(Net(c.prefix), holes, AddrPath(a));
    var q :| q in Remainder(Net(c.prefix), holes) && q <= AddrPath(a);
    RemainderCanonical(Net(c.prefix), holes, q);
    RemainderMaximal(Net(c.prefix), holes, q);
    CommonAddress(Net(c.prefix), MappedBlock(), q);
    AddrPathHead(a);
    assert q[0] == AddrPath(a)[0];
    assert Canonical(q, Net(c.prefix), holes) && Family4(q) == Is4(a);
  }
}
