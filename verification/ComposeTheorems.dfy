/** Properties of compiled topologies: every reference is defined, dependencies are acyclic, and the
    definition does not depend on the order of the sets or on how often it was compiled before. */
module ComposeTheorems {
  import opened Collections
  import opened Topologies
  import opened ComposeSpec

  /** Distinct node names, as the constructor of a topology demands, of nodes with a set of services. */
  predicate Constructed(m: Model) {
    DistinctNames(m.nodes, NodeName) && forall n | n in m.nodes :: DistinctNames(n.services, ServiceName)
  }

  /** Brokers of one name are on networks of the same names. */
  ghost predicate CoherentBrokers(m: Model) {
    forall b, c | b in AllBrokers(m) && c in AllBrokers(m) && b.name == c.name ::
      Names(b.networks, NetName) == Names(c.networks, NetName)
  }

  /** A service name is one object. */
  ghost predicate CoherentServices(m: Model) { Coherent(AllServices(m), ServiceName) }

  function NetworkNames(m: Model): set<string> { Names(NetworksOf(m), NetName) }

  function NodeNames(m: Model): set<string> { Names(m.nodes, NodeName) }

  function BrokerNames(m: Model): set<string> { Names(BrokersOf(m), BrokerName) }

  /** The networks of the nodes and of the kept brokers are networks of the topology. */
  lemma NetworksCovered(m: Model)
    ensures forall n | n in m.nodes :: Names(n.networks, NetName) <= NetworkNames(m)
    ensures forall b | b in BrokersOf(m) :: Names(b.networks, NetName) <= NetworkNames(m)
  {
    FirstByNameCollects(NetworksUsed(m, BrokersOf(m)), NetName);
    hide FirstByName;
    forall n, net | n in m.nodes && net in n.networks ensures net.name in NetworkNames(m) {
      NetworksUsedAre(m, BrokersOf(m), net);
      assert NetName(net) in Names(NetworksUsed(m, BrokersOf(m)), NetName);
    }
    forall b, net | b in BrokersOf(m) && net in b.networks ensures net.name in NetworkNames(m) {
      NetworksUsedAre(m, BrokersOf(m), net);
      assert NetName(net) in Names(NetworksUsed(m, BrokersOf(m)), NetName);
    }
  }

  /** Coherent brokers have no network that the kept ones lack. */
  lemma AttachedCovered(m: Model, n: Node)
    requires CoherentBrokers(m) && n in m.nodes && BrokerNetwork(n).Some?
    ensures BrokerNetwork(n).value.name in NetworkNames(m)
  {
    var b := n.broker.value;
    NodeBrokersAre(m.nodes, b);
    FirstByNameCollects(AllBrokers(m), BrokerName);
    hide FirstByName, NetworkNames;
    assert BrokerName(b) in Names(AllBrokers(m), BrokerName);
    var c :| c in BrokersOf(m) && c.name == b.name;
    NetworksCovered(m);
  }

  /** A broker of the same name overwrites the node. */
  predicate Shadowed(m: Model, n: Node) { n.name in BrokerNames(m) }

  /********** Networks **********/

  ghost predicate NetworksDefined(m: Model) {
    forall k | k in Compile(m).services :: Compile(m).services[k].networks <= Compile(m).networks.Keys
  }

  /** The private networks of the kept services. */
  function PrivateNetworks(m: Model): set<string> {
    set s, n | s in ServicesOf(m) && n in ServiceNodes(m, s) :: ServiceNetworkName(s.name, n.name)
  }

  lemma DefinedNetworks(m: Model)
    ensures Compile(m).networks.Keys == NetworkNames(m) + PrivateNetworks(m)
  {
    forall k ensures k in Compile(m).networks <==> k in NetworkNames(m) + PrivateNetworks(m) {
      NetworkKeys(m, NetworksOf(m), ServicesOf(m), k);
    }
  }

  /** All that a written entry lists is defined, unless the entry is a node's. */
  lemma EntryNetworks(m: Model, e: Entry<Definition>)
    requires e in ServiceEntries(m)
    ensures e.value.networks <= Compile(m).networks.Keys || exists n :: n in m.nodes && e == NodeEntry(m)(n)
  {
    ServicesAre(m, BrokersOf(m), NetworksOf(m), ServicesOf(m), e);
    DefinedNetworks(m);
    NetworksCovered(m);
    hide Compile, NetworksOf, ServicesOf, BrokersOf, Services, NodeDefinition, Config, ServiceNodes;
    if b :| b in BrokersOf(m) && e == BrokerEntry(m)(b) {
    } else if net :| net in NetworksOf(m) && e == GatewayEntry(m)(net) {
      assert NetName(net) in NetworkNames(m);
    }
  }

  /** The networks of a node other than its own list. */
  function ExtraNetworks(n: Node): set<string> { Names(Attached(n), NetName) + LinkedNetworks(n) }

  lemma NodeNetworks(m: Model, n: Node)
    requires n in m.nodes
    ensures NodeDefinition(m, n).networks <= Compile(m).networks.Keys <==>
            ExtraNetworks(n) <= NetworkNames(m) + PrivateNetworks(m)
  {
    DefinedNetworks(m);
    NetworksCovered(m);
    NamesConcat(n.networks, Attached(n), NetName);
    hide Compile, NetworkNames, PrivateNetworks, Attached;
  }

  /** Every network a compiled service lists is defined, exactly when the network of its broker and its private
      service networks are, for every node that no broker overwrites. */
  lemma NetworksDefinedIff(m: Model)
    requires Constructed(m)
    ensures NetworksDefined(m) <==>
            forall n | n in m.nodes && !Shadowed(m, n) :: ExtraNetworks(n) <= NetworkNames(m) + PrivateNetworks(m)
  {
    hide Compile, BrokersOf, NodeDefinition, BrokerDefinition, NetworkNames, PrivateNetworks, ExtraNetworks, Shadowed;
    if NetworksDefined(m) {
      forall n | n in m.nodes && !Shadowed(m, n) ensures ExtraNetworks(n) <= NetworkNames(m) + PrivateNetworks(m) {
        NodeStands(m, n);
        NodeNetworks(m, n);
      }
    }
    if forall n | n in m.nodes && !Shadowed(m, n) :: ExtraNetworks(n) <= NetworkNames(m) + PrivateNetworks(m) {
      forall k | k in Compile(m).services ensures Compile(m).services[k].networks <= Compile(m).networks.Keys {
        ServiceNetworksDefined(m, k);
      }
    }
  }

  lemma NodeStands(m: Model, n: Node)
    requires Constructed(m) && n in m.nodes && !Shadowed(m, n)
    ensures n.name in Compile(m).services && Compile(m).services[n.name] == NodeDefinition(m, n)
  {
    LastEntriesWin(m, NodeEntry(m)(n));
  }

  lemma ServiceNetworksDefined(m: Model, k: string)
    requires Constructed(m) && k in Compile(m).services
    requires forall n | n in m.nodes && !Shadowed(m, n) :: ExtraNetworks(n) <= NetworkNames(m) + PrivateNetworks(m)
    ensures Compile(m).services[k].networks <= Compile(m).networks.Keys
  {
    MapOfIs(ServiceEntries(m), k);
    EntryNetworks(m, Entry(k, Compile(m).services[k]));
    hide Compile, BrokersOf, NodeDefinition, BrokerDefinition, NetworkNames, PrivateNetworks, ExtraNetworks, ServiceEntries;
    if k in BrokerNames(m) {
      var b :| b in BrokersOf(m) && b.name == k;
      LastEntriesWin(m, BrokerEntry(m)(b));
      BrokerEntryNetworks(m, b);
    } else if n :| n in m.nodes && Entry(k, Compile(m).services[k]) == NodeEntry(m)(n) {
      NodeNetworks(m, n);
    }
  }

  lemma BrokerEntryNetworks(m: Model, b: Broker)
    requires b in BrokersOf(m)
    ensures BrokerDefinition(m, b).networks <= Compile(m).networks.Keys
  {
    DefinedNetworks(m);
    NetworksCovered(m);
    hide Compile, BrokersOf, NetworkNames, PrivateNetworks;
  }

  lemma LinkedDefined(m: Model, n: Node, s: Service)
    requires Constructed(m) && n in m.nodes && s in n.services && s in ServicesOf(m)
    ensures ServiceNetworkName(s.name, n.name) in PrivateNetworks(m)
  {
    ServiceNodesAre(m, s);
  }

  /** When services of one name are one object, none is left out. */
  lemma CoherentIsKept(m: Model, s: Service)
    requires CoherentServices(m) && s in AllServices(m)
    ensures s in ServicesOf(m)
  {
    FirstByNameCollects(AllServices(m), ServiceName);
    CollectsAll(ServicesOf(m), AllServices(m), ServiceName);
  }

  /** In particular they are when services of one name are one object and brokers of one name agree on their
      networks, whatever names clash among nodes, gateways and brokers. */
  lemma NetworksClosed(m: Model)
    requires Constructed(m) && CoherentBrokers(m) && CoherentServices(m)
    ensures NetworksDefined(m)
  {
    hide CoherentBrokers, CoherentServices, BrokerNetwork, NetworkNames, PrivateNetworks, ServicesOf, NetworksDefined, Shadowed;
    forall n | n in m.nodes ensures ExtraNetworks(n) <= NetworkNames(m) + PrivateNetworks(m) {
      if BrokerNetwork(n).Some? {
        AttachedCovered(m, n);
      }
      forall s | s in n.services ensures ServiceNetworkName(s.name, n.name) in PrivateNetworks(m) {
        AllServicesAre(m, s);
        CoherentIsKept(m, s);
        LinkedDefined(m, n, s);
      }
    }
    NetworksDefinedIff(m);
  }

  /** Rendered service names are pairwise distinct. */
  predicate WellNamed(m: Model) { DistinctNames(ServiceEntries(m), Key) }

  /** Private networks of different services and nodes have different names, and none is a topology network. */
  ghost predicate RendersApart(m: Model) {
    && (forall s, n, t, k | s in AllServices(m) && n in m.nodes && t in AllServices(m) && k in m.nodes
                            && ServiceNetworkName(s.name, n.name) == ServiceNetworkName(t.name, k.name) ::
          s.name == t.name && n.name == k.name)
    && (forall s, n | s in AllServices(m) && n in m.nodes :: ServiceNetworkName(s.name, n.name) !in NetworkNames(m))
  }

  lemma PrivateNetworkOf(m: Model, n: Node, s: Service, l: Node, t: Service)
    requires RendersApart(m) && n in m.nodes && l in m.nodes && s in AllServices(m) && t in AllServices(m)
    requires ServiceNetworkName(s.name, n.name) == ServiceNetworkName(t.name, l.name)
    ensures s.name == t.name && n.name == l.name && ServiceNetworkName(s.name, n.name) !in NetworkNames(m)
  {
    hide NetworkNames, AllServices, ServiceNetworkName;
  }

  /** Only the nodes that hold a kept service object define its private networks. */
  lemma DefinedPrivateNetwork(m: Model, n: Node, s: Service)
    requires Constructed(m) && RendersApart(m) && n in m.nodes && s in n.services
    requires ServiceNetworkName(s.name, n.name) in Compile(m).networks
    ensures exists t :: t in ServicesOf(m) && t in n.services && t.name == s.name
  {
    hide RendersApart, NetworksOf, ServicesOf, AllServices, ServiceNodes, ServiceNetworkName, MapOf, Networks;
    var k := ServiceNetworkName(s.name, n.name);
    AllServicesAre(m, s);
    PrivateNetworkOf(m, n, s, n, s);
    NetworkKeys(m, NetworksOf(m), ServicesOf(m), k);
    var t, l :| t in ServicesOf(m) && l in ServiceNodes(m, t) && k == ServiceNetworkName(t.name, l.name);
    ServiceNodesAre(m, t);
    AllServicesAre(m, t);
    PrivateNetworkOf(m, n, s, l, t);
    DistinctMeans(m.nodes, NodeName, n, l);
  }

  lemma NoneShadowed(m: Model, n: Node)
    requires WellNamed(m) && n in m.nodes
    ensures !Shadowed(m, n)
  {
    hide NodeDefinition, BrokerDefinition, HostEntries, Each;
    var first := HostEntries(m, NetworksOf(m)) + Each(NetworksOf(m), GatewayEntry(m)) + Each(ServicesOf(m), ServiceEntry(m))
                 + Each(m.nodes, NodeEntry(m));
    var brokers := Each(BrokersOf(m), BrokerEntry(m));
    assert ServiceEntries(m) == first + brokers;
    EachMember(m.nodes, NodeEntry(m), NodeEntry(m)(n));
    if b :| b in BrokersOf(m) && b.name == n.name {
      EachMember(BrokersOf(m), BrokerEntry(m), BrokerEntry(m)(b));
      DistinctAcross(first, brokers, Key, NodeEntry(m)(n), BrokerEntry(m)(b));
    }
  }

  /** A node holding an object that the service set did not keep lists a network nobody defines. */
  lemma StrayService(m: Model, n: Node, s: Service)
    requires Constructed(m) && WellNamed(m) && RendersApart(m)
    requires n in m.nodes && s in n.services && s !in ServicesOf(m)
    ensures !NetworksDefined(m)
  {
    var k := ServiceNetworkName(s.name, n.name);
    NoneShadowed(m, n);
    NetworksDefinedIff(m);
    DefinedNetworks(m);
    assert k in ExtraNetworks(n);
    hide Compile, ServicesOf, ExtraNetworks, RendersApart, WellNamed, ServiceNetworkName, NetworksDefined, NetworkNames, PrivateNetworks;
    if k in Compile(m).networks {
      DefinedPrivateNetwork(m, n, s);
      var t :| t in ServicesOf(m) && t in n.services && t.name == s.name;
      DistinctMeans(n.services, ServiceName, s, t);
      assert false;
    }
  }

  lemma SomeServiceIsStray(m: Model)
    requires !CoherentServices(m)
    ensures exists n, s :: n in m.nodes && s in n.services && s !in ServicesOf(m)
  {
    var s, t :| s in AllServices(m) && t in AllServices(m) && s.name == t.name && s != t;
    FirstByNameCollects(AllServices(m), ServiceName);
    AllServicesAre(m, s);
    AllServicesAre(m, t);
    if s in ServicesOf(m) && t in ServicesOf(m) {
      DistinctMeans(ServicesOf(m), ServiceName, s, t);
    }
  }

  /** The private networks that nodes list. */
  function ListedPrivateNetworks(m: Model): set<string> {
    set n, s | n in m.nodes && s in n.services :: ServiceNetworkName(s.name, n.name)
  }

  /** The broker network of every node is a network of the topology, or at least has the name of a private one. */
  predicate BrokerNetworksKnown(m: Model) {
    forall n | n in m.nodes && BrokerNetwork(n).Some? ::
      BrokerNetwork(n).value.name in NetworkNames(m) + ListedPrivateNetworks(m)
  }

  lemma CoherentPrivateNetworks(m: Model)
    requires Constructed(m) && CoherentServices(m)
    ensures PrivateNetworks(m) == ListedPrivateNetworks(m)
  {
    hide ServicesOf, ServiceNodes, ServiceNetworkName, CoherentServices, AllServices;
    forall k | k in PrivateNetworks(m) ensures k in ListedPrivateNetworks(m) {
      var s, n :| s in ServicesOf(m) && n in ServiceNodes(m, s) && k == ServiceNetworkName(s.name, n.name);
      ServiceNodesAre(m, s);
    }
    forall k | k in ListedPrivateNetworks(m) ensures k in PrivateNetworks(m) {
      var n, s :| n in m.nodes && s in n.services && k == ServiceNetworkName(s.name, n.name);
      AllServicesAre(m, s);
      CoherentIsKept(m, s);
      LinkedDefined(m, n, s);
    }
  }

  /** With coherent services only the broker networks are in doubt. */
  lemma CoherentNetworksIff(m: Model)
    requires Constructed(m) && CoherentServices(m) && forall n | n in m.nodes :: !Shadowed(m, n)
    ensures NetworksDefined(m) <==> BrokerNetworksKnown(m)
  {
    hide NetworksDefined, CoherentServices, NetworkNames, ListedPrivateNetworks, PrivateNetworks, BrokerNetwork, Attached,
         Constructed, LinkedNetworks;
    CoherentPrivateNetworks(m);
    NetworksDefinedIff(m);
    forall n | n in m.nodes
      ensures ExtraNetworks(n) <= NetworkNames(m) + PrivateNetworks(m) <==>
              (BrokerNetwork(n).Some? ==> BrokerNetwork(n).value.name in NetworkNames(m) + ListedPrivateNetworks(m))
    {
      LinkedAreListed(m, n);
      AttachedNames(n);
    }
  }

  /** With well-separated names the compiled networks are closed exactly when services of one name are one
      object and no node is on a network that only a dropped broker has: `get_service_nodes` looks nodes up by
      identity, the sets of services and brokers merge by name. */
  lemma NetworksClosedIff(m: Model)
    requires Constructed(m) && WellNamed(m) && RendersApart(m)
    ensures NetworksDefined(m) <==> CoherentServices(m) && BrokerNetworksKnown(m)
  {
    hide NetworksDefined, WellNamed, RendersApart, Constructed, CoherentServices, BrokerNetworksKnown, Shadowed;
    if CoherentServices(m) {
      forall n | n in m.nodes ensures !Shadowed(m, n) {
        NoneShadowed(m, n);
      }
      CoherentNetworksIff(m);
    } else {
      SomeServiceIsStray(m);
      var n, s :| n in m.nodes && s in n.services && s !in ServicesOf(m);
      StrayService(m, n, s);
    }
  }

  lemma LinkedAreListed(m: Model, n: Node)
    requires n in m.nodes
    ensures LinkedNetworks(n) <= ListedPrivateNetworks(m)
  {
  }

  lemma AttachedNames(n: Node)
    ensures Names(Attached(n), NetName) == if BrokerNetwork(n).Some? then {BrokerNetwork(n).value.name} else {}
  {
    if BrokerNetwork(n).Some? {
      NamesOne(BrokerNetwork(n).value, NetName);
    }
  }

  /********** Dependencies **********/

  ghost predicate DependenciesDefined(m: Model) {
    forall k | k in Compile(m).services :: Compile(m).services[k].dependsOn <= Compile(m).services.Keys
  }

  /** The names that a topology declares: hosts, gateways, services, nodes and brokers. */
  function DeclaredNames(m: Model): set<string> {
    Infrastructure(m) + Gateways(NetworksOf(m)) + Names(ServicesOf(m), ServiceName) + NodeNames(m) + BrokerNames(m)
  }

  lemma EntryKeys<T>(xs: seq<T>, name: T -> string, entry: T -> Entry<Definition>, k: string)
    requires forall x :: entry(x).key == name(x)
    ensures k in MapOf(Each(xs, entry)) <==> k in Names(xs, name)
  {
    MapOfIs(Each(xs, entry), k);
    forall e ensures e in Each(xs, entry) <==> exists x :: x in xs && e == entry(x) {
      EachMember(xs, entry, e);
    }
    if x :| x in xs && name(x) == k {
      assert entry(x) in Each(xs, entry) && Key(entry(x)) == k;
    }
  }

  lemma HostKeys(m: Model, nets: seq<Network>, k: string)
    ensures k in MapOf(HostEntries(m, nets)) <==> k in Infrastructure(m)
  {
    MapOfIs(HostEntries(m, nets), k);
    hide MapOf;
    var proxy, redis := Entry(m.proxy.host, ProxyDefinition(nets)), Entry(m.redis.host, RedisDefinition(nets));
    if m.proxy.enabled && k == m.proxy.host {
      assert proxy in HostEntries(m, nets) && Key(proxy) == k;
    }
    if m.redis.enabled && k == m.redis.host {
      assert redis in HostEntries(m, nets) && Key(redis) == k;
    }
  }

  lemma GatewayKeys(m: Model, nets: seq<Network>, k: string)
    ensures k in MapOf(Each(nets, GatewayEntry(m))) <==> k in Gateways(nets)
  {
    hide GatewayDefinition;
    EntryKeys(nets, GatewayOf, GatewayEntry(m), k);
  }

  /** Which of the five groups of entries a name is in. */
  lemma GroupKeys(m: Model, k: string)
    ensures k in MapOf(HostEntries(m, NetworksOf(m))) <==> k in Infrastructure(m)
    ensures k in MapOf(Each(NetworksOf(m), GatewayEntry(m))) <==> k in Gateways(NetworksOf(m))
    ensures k in MapOf(Each(ServicesOf(m), ServiceEntry(m))) <==> k in Names(ServicesOf(m), ServiceName)
    ensures k in MapOf(Each(m.nodes, NodeEntry(m))) <==> k in NodeNames(m)
    ensures k in MapOf(Each(BrokersOf(m), BrokerEntry(m))) <==> k in BrokerNames(m)
  {
    hide MapOf, Each, NetworksOf, ServicesOf, BrokersOf, NodeDefinition, BrokerDefinition, ServiceDefinition;
    HostKeys(m, NetworksOf(m), k);
    GatewayKeys(m, NetworksOf(m), k);
    EntryKeys(ServicesOf(m), ServiceName, ServiceEntry(m), k);
    EntryKeys(m.nodes, NodeName, NodeEntry(m), k);
    EntryKeys(BrokersOf(m), BrokerName, BrokerEntry(m), k);
  }

  /** Exactly the declared names are compiled. */
  lemma CompiledNames(m: Model)
    ensures Compile(m).services.Keys == DeclaredNames(m)
  {
    forall k ensures k in Compile(m).services <==> k in DeclaredNames(m) {
      GroupKeys(m, k);
      ServicesSplit(m, BrokersOf(m), NetworksOf(m), ServicesOf(m));
    }
  }

  /** A name of a broker or node; no gateway, host or service overwrites its definition. */
  predicate OnTop(m: Model, k: string) { k in BrokerNames(m) || k in NodeNames(m) }

  /** A gateway that no service, node or broker overwrites. */
  predicate IsGateway(m: Model, k: string) {
    k in Gateways(NetworksOf(m)) && !OnTop(m, k) && k !in Names(ServicesOf(m), ServiceName)
  }

  /** The networks whose gateways the broker or node of a name waits for. */
  function NetworksAt(m: Model, k: string): set<string> {
    if k in BrokerNames(m) then set b, net | b in BrokersOf(m) && b.name == k && net in b.networks :: net.name
    else set n, net | n in m.nodes && n.name == k && net in n.networks + Attached(n) :: net.name
  }

  function GatewayNames(nets: set<string>): set<string> { set net | net in nets :: GatewayName(net) }

  /** What a compiled name depends on, read from the topology. */
  function Dependencies(m: Model, k: string): set<string> {
    if OnTop(m, k) then GatewayNames(NetworksAt(m, k)) + Infrastructure(m)
    else if IsGateway(m, k) then Infrastructure(m)
    else {}
  }

  lemma GatewaysByName(nets: seq<Network>, names: set<string>)
    requires names == Names(nets, NetName)
    ensures Gateways(nets) == GatewayNames(names)
  {
    hide GatewayName;
    forall net | net in nets ensures GatewayName(net.name) in GatewayNames(names) {
      assert NetName(net) in names;
    }
  }

  lemma NetworksAtBroker(m: Model, b: Broker)
    requires b in BrokersOf(m)
    ensures NetworksAt(m, b.name) == Names(b.networks, NetName) && OnTop(m, b.name)
  {
    hide FirstByName, AllBrokers;
    FirstByNameCollects(AllBrokers(m), BrokerName);
    assert BrokerName(b) in BrokerNames(m);
    forall c | c in BrokersOf(m) && c.name == b.name ensures c == b {
      DistinctMeans(BrokersOf(m), BrokerName, b, c);
    }
  }

  lemma BrokerDependencies(m: Model, b: Broker)
    requires Constructed(m) && b in BrokersOf(m)
    ensures b.name in Compile(m).services && Compile(m).services[b.name].dependsOn == Dependencies(m, b.name)
  {
    hide Compile, Config, BrokersOf, Infrastructure, Constructed, NetworksAt, OnTop, Names, Gateways;
    LastEntriesWin(m, BrokerEntry(m)(b));
    NetworksAtBroker(m, b);
    GatewaysByName(b.networks, NetworksAt(m, b.name));
  }

  lemma NetworksAtNode(m: Model, n: Node)
    requires Constructed(m) && n in m.nodes && !Shadowed(m, n)
    ensures NetworksAt(m, n.name) == Names(n.networks + Attached(n), NetName) && OnTop(m, n.name)
  {
    hide BrokersOf, Attached;
    assert NodeName(n) in NodeNames(m);
    forall k | k in m.nodes && k.name == n.name ensures k == n {
      DistinctMeans(m.nodes, NodeName, n, k);
    }
  }

  lemma NodeDependencies(m: Model, n: Node)
    requires Constructed(m) && n in m.nodes && !Shadowed(m, n)
    ensures n.name in Compile(m).services && Compile(m).services[n.name].dependsOn == Dependencies(m, n.name)
  {
    hide Compile, Config, BrokersOf, Infrastructure, Attached, Constructed, Shadowed, NetworksAt, OnTop, Names, Gateways;
    NodeStands(m, n);
    NetworksAtNode(m, n);
    GatewaysByName(n.networks + Attached(n), NetworksAt(m, n.name));
  }

  lemma LowerDependencies(m: Model, k: string)
    requires k in Compile(m).services && !OnTop(m, k)
    ensures Compile(m).services[k].dependsOn == Dependencies(m, k)
  {
    var hosts, gates := HostEntries(m, NetworksOf(m)), Each(NetworksOf(m), GatewayEntry(m));
    var srvs, nodes, brokers := Each(ServicesOf(m), ServiceEntry(m)), Each(m.nodes, NodeEntry(m)), Each(BrokersOf(m), BrokerEntry(m));
    hide Services, HostEntries, Each, NetworksOf, ServicesOf, BrokersOf, NodeDefinition, BrokerDefinition, Infrastructure, MapOf;
    ServicesSplit(m, BrokersOf(m), NetworksOf(m), ServicesOf(m));
    GroupKeys(m, k);
    MapOfIs(srvs, k);
    MapOfIs(gates, k);
    MapOfIs(hosts, k);
    if k in MapOf(srvs) {
      EachMember(ServicesOf(m), ServiceEntry(m), Entry(k, MapOf(srvs)[k]));
    } else if k in MapOf(gates) {
      EachMember(NetworksOf(m), GatewayEntry(m), Entry(k, MapOf(gates)[k]));
    } else {
      HostDependencies(m, Entry(k, MapOf(hosts)[k]));
    }
  }

  lemma HostDependencies(m: Model, e: Entry<Definition>)
    requires e in HostEntries(m, NetworksOf(m))
    ensures e.value.dependsOn == {}
  {
  }

  /** The dependencies of every compiled service, overwritten entries included. */
  lemma DependenciesAre(m: Model, k: string)
    requires Constructed(m) && k in Compile(m).services
    ensures Compile(m).services[k].dependsOn == Dependencies(m, k)
  {
    hide Compile, BrokersOf, Dependencies;
    if k in BrokerNames(m) {
      var b :| b in BrokersOf(m) && b.name == k;
      BrokerDependencies(m, b);
    } else if k in NodeNames(m) {
      var n :| n in m.nodes && n.name == k;
      NodeDependencies(m, n);
    } else {
      LowerDependencies(m, k);
    }
  }

  /** Every `depends_on` target is a compiled service, exactly when every node that no broker overwrites waits,
      for its broker network, for a gateway name that the topology declares in some way. */
  lemma DependenciesDefinedIff(m: Model)
    requires Constructed(m)
    ensures DependenciesDefined(m) <==>
            forall n | n in m.nodes && !Shadowed(m, n) && BrokerNetwork(n).Some? ::
              GatewayName(BrokerNetwork(n).value.name) in DeclaredNames(m)
  {
    CompiledNames(m);
    hide Compile, NetworksOf, BrokersOf, BrokerNetwork, DeclaredNames, GatewayName, Dependencies, OnTop, IsGateway, Shadowed;
    if DependenciesDefined(m) {
      forall n | n in m.nodes && !Shadowed(m, n) && BrokerNetwork(n).Some?
        ensures GatewayName(BrokerNetwork(n).value.name) in DeclaredNames(m)
      {
        NodeDependencies(m, n);
        AttachedDependency(m, n);
      }
    }
    if forall n | n in m.nodes && !Shadowed(m, n) && BrokerNetwork(n).Some? ::
         GatewayName(BrokerNetwork(n).value.name) in DeclaredNames(m) {
      forall k | k in Compile(m).services ensures Compile(m).services[k].dependsOn <= Compile(m).services.Keys {
        DependenciesAre(m, k);
        DependenciesDeclared(m, k);
      }
    }
  }

  lemma AttachedDependency(m: Model, n: Node)
    requires n in m.nodes && !Shadowed(m, n) && BrokerNetwork(n).Some?
    ensures GatewayName(BrokerNetwork(n).value.name) in Dependencies(m, n.name)
  {
    hide BrokersOf, BrokerNetwork, GatewayName, Infrastructure;
    var net := BrokerNetwork(n).value;
    assert NodeName(n) in NodeNames(m) && net in n.networks + Attached(n);
    assert net.name in NetworksAt(m, n.name);
  }

  lemma DependenciesDeclared(m: Model, k: string)
    requires forall n | n in m.nodes && !Shadowed(m, n) && BrokerNetwork(n).Some? ::
               GatewayName(BrokerNetwork(n).value.name) in DeclaredNames(m)
    ensures Dependencies(m, k) <= DeclaredNames(m)
  {
    NetworksCovered(m);
    hide BrokersOf, NetworksOf, BrokerNetwork, GatewayName, Infrastructure, NetworkNames;
    forall net | OnTop(m, k) && net in NetworksAt(m, k) ensures GatewayName(net) in DeclaredNames(m) {
      NetworkAtIsKnown(m, k, net);
      if net in NetworkNames(m) {
        KnownGateway(m, net);
      }
    }
  }

  lemma KnownGateway(m: Model, net: string)
    requires net in NetworkNames(m)
    ensures GatewayName(net) in Gateways(NetworksOf(m))
  {
    hide NetworksOf, GatewayName;
  }

  /** The networks of a broker or node are networks of the topology, or its broker network. */
  lemma NetworkAtIsKnown(m: Model, k: string, net: string)
    requires net in NetworksAt(m, k)
    ensures net in NetworkNames(m) || exists n :: n in m.nodes && !Shadowed(m, n) && n.name == k
                                               && BrokerNetwork(n).Some? && BrokerNetwork(n).value.name == net
  {
    NetworksCovered(m);
    hide BrokersOf, NetworkNames, BrokerNetwork;
    if k in BrokerNames(m) {
      var b, x :| b in BrokersOf(m) && b.name == k && x in b.networks && x.name == net;
      assert NetName(x) in Names(b.networks, NetName);
    } else {
      var n, x :| n in m.nodes && n.name == k && x in n.networks + Attached(n) && x.name == net;
      if x in n.networks {
        assert NetName(x) in Names(n.networks, NetName);
      }
    }
  }

  /** In particular they are when brokers of one name agree on their networks. */
  lemma DependenciesClosed(m: Model)
    requires Constructed(m) && CoherentBrokers(m)
    ensures DependenciesDefined(m)
  {
    hide CoherentBrokers, BrokersOf, NetworksOf, BrokerNetwork, GatewayName, NetworkNames, DependenciesDefined;
    forall n | n in m.nodes && !Shadowed(m, n) && BrokerNetwork(n).Some?
      ensures GatewayName(BrokerNetwork(n).value.name) in DeclaredNames(m)
    {
      AttachedCovered(m, n);
      KnownGateway(m, BrokerNetwork(n).value.name);
    }
    DependenciesDefinedIff(m);
  }

  lemma DistinctAcross<T>(xs: seq<T>, ys: seq<T>, name: T -> string, x: T, y: T)
    requires DistinctNames(xs + ys, name) && x in xs && y in ys
    ensures name(x) != name(y)
  {
    var i :| 0 <= i < |xs| && xs[i] == x;
    var j :| 0 <= j < |ys| && ys[j] == y;
    assert (xs + ys)[i] == x && (xs + ys)[|xs| + j] == y;
  }

  lemma DistinctPrefix<T>(xs: seq<T>, ys: seq<T>, name: T -> string)
    requires DistinctNames(xs + ys, name)
    ensures DistinctNames(xs, name)
  {
    assert forall i | 0 <= i < |xs| :: (xs + ys)[i] == xs[i];
  }

  lemma Regroup<T>(h: seq<T>, g: seq<T>, s: seq<T>, n: seq<T>, b: seq<T>)
    ensures h + g + s + n + b == (h + g) + (s + n + b)
  {
  }

  /** The entries written first and those written later. */
  lemma TwoHalves(m: Model)
    ensures var first := HostEntries(m, NetworksOf(m)) + Each(NetworksOf(m), GatewayEntry(m));
            var later := Each(ServicesOf(m), ServiceEntry(m)) + Each(m.nodes, NodeEntry(m)) + Each(BrokersOf(m), BrokerEntry(m));
            ServiceEntries(m) == first + later
  {
    hide HostEntries, Each, NetworksOf, ServicesOf, BrokersOf;
    Regroup(HostEntries(m, NetworksOf(m)), Each(NetworksOf(m), GatewayEntry(m)), Each(ServicesOf(m), ServiceEntry(m)),
            Each(m.nodes, NodeEntry(m)), Each(BrokersOf(m), BrokerEntry(m)));
  }

  lemma HostsAndGatewaysApart(m: Model, h: Entry<Definition>, g: Entry<Definition>)
    requires WellNamed(m) && h in HostEntries(m, NetworksOf(m)) && g in Each(NetworksOf(m), GatewayEntry(m))
    ensures h.key != g.key
  {
    hide HostEntries, Each, NetworksOf, ServicesOf, BrokersOf, ServiceEntries, DistinctNames;
    var hosts, gates := HostEntries(m, NetworksOf(m)), Each(NetworksOf(m), GatewayEntry(m));
    var later := Each(ServicesOf(m), ServiceEntry(m)) + Each(m.nodes, NodeEntry(m)) + Each(BrokersOf(m), BrokerEntry(m));
    TwoHalves(m);
    DistinctPrefix(hosts + gates, later, Key);
    DistinctAcross(hosts, gates, Key, h, g);
  }

  lemma LaterGroupsApart(m: Model, e: Entry<Definition>, n: Entry<Definition>)
    requires WellNamed(m) && (e in HostEntries(m, NetworksOf(m)) || e in Each(NetworksOf(m), GatewayEntry(m)))
    requires n in Each(m.nodes, NodeEntry(m)) || n in Each(BrokersOf(m), BrokerEntry(m))
    ensures n.key != e.key
  {
    hide HostEntries, Each, NetworksOf, ServicesOf, BrokersOf, ServiceEntries, DistinctNames;
    var first := HostEntries(m, NetworksOf(m)) + Each(NetworksOf(m), GatewayEntry(m));
    var later := Each(ServicesOf(m), ServiceEntry(m)) + Each(m.nodes, NodeEntry(m)) + Each(BrokersOf(m), BrokerEntry(m));
    TwoHalves(m);
    DistinctAcross(first, later, Key, e, n);
  }

  lemma KeyIsAlone(m: Model, k: string)
    requires WellNamed(m) && k in Gateways(NetworksOf(m)) + Infrastructure(m)
    ensures k in Gateways(NetworksOf(m)) ==> k !in Infrastructure(m)
    ensures !OnTop(m, k)
  {
    var nets := NetworksOf(m);
    var hosts, gates := HostEntries(m, nets), Each(nets, GatewayEntry(m));
    var host := if m.proxy.enabled && k == m.proxy.host then Entry(k, ProxyDefinition(nets)) else Entry(k, RedisDefinition(nets));
    hide WellNamed, NetworksOf, BrokersOf, GatewayDefinition, NodeDefinition, BrokerDefinition;
    assert k in Infrastructure(m) ==> host in hosts;
    if net :| net in nets && GatewayName(net.name) == k {
      EachMember(nets, GatewayEntry(m), GatewayEntry(m)(net));
      if k in Infrastructure(m) {
        HostsAndGatewaysApart(m, host, GatewayEntry(m)(net));
      }
    }
    if n :| n in m.nodes && n.name == k {
      EachMember(m.nodes, NodeEntry(m), NodeEntry(m)(n));
      NotLater(m, k, NodeEntry(m)(n));
    }
    if b :| b in BrokersOf(m) && b.name == k {
      EachMember(BrokersOf(m), BrokerEntry(m), BrokerEntry(m)(b));
      NotLater(m, k, BrokerEntry(m)(b));
    }
  }

  lemma NotLater(m: Model, k: string, n: Entry<Definition>)
    requires WellNamed(m) && k in Gateways(NetworksOf(m)) + Infrastructure(m)
    requires n in Each(m.nodes, NodeEntry(m)) || n in Each(BrokersOf(m), BrokerEntry(m))
    ensures n.key != k
  {
    hide WellNamed, NetworksOf, NodeEntry, BrokerEntry, GatewayDefinition, Each;
    var nets := NetworksOf(m);
    if net :| net in nets && GatewayName(net.name) == k {
      EachMember(nets, GatewayEntry(m), GatewayEntry(m)(net));
      LaterGroupsApart(m, GatewayEntry(m)(net), n);
    } else {
      var host := if m.proxy.enabled && k == m.proxy.host then Entry(k, ProxyDefinition(nets)) else Entry(k, RedisDefinition(nets));
      assert host in HostEntries(m, nets);
      LaterGroupsApart(m, host, n);
    }
  }

  /********** Cycles **********/

  /** Each name is a compiled service that depends on the next one. */
  predicate Chain(services: map<string, Definition>, ks: seq<string>) {
    forall i | 0 <= i < |ks| - 1 :: ks[i] in services && ks[i + 1] in services[ks[i]].dependsOn
  }

  /** No chain of dependencies returns to its start. */
  ghost predicate Acyclic(m: Model) {
    forall ks | |ks| > 1 && Chain(Compile(m).services, ks) :: ks[0] != ks[|ks| - 1]
  }

  /** An enabled host is overwritten by a gateway, a node or a broker. */
  predicate HostTaken(m: Model) { exists k :: k in Infrastructure(m) && (OnTop(m, k) || IsGateway(m, k)) }

  /** Brokers and nodes each named as the gateway of a network that the one before is on, back to the first. */
  predicate Ring(m: Model, ks: seq<string>) {
    && |ks| > 1 && ks[0] == ks[|ks| - 1]
    && forall i | 0 <= i < |ks| - 1 :: OnTop(m, ks[i]) && ks[i + 1] in GatewayNames(NetworksAt(m, ks[i]))
  }

  lemma TopIsCompiled(m: Model, k: string)
    requires OnTop(m, k) || IsGateway(m, k)
    ensures k in Compile(m).services
  {
    hide Compile, BrokersOf, NetworksOf, ServicesOf;
    CompiledNames(m);
  }

  /** A compiled service depends on itself exactly when it is a broker or node named as an enabled host or as the
      gateway of one of its networks, or a gateway named as an enabled host. */
  lemma SelfDependencyIff(m: Model, k: string)
    requires Constructed(m) && k in Compile(m).services
    ensures k in Compile(m).services[k].dependsOn <==>
            (OnTop(m, k) && k in GatewayNames(NetworksAt(m, k)) + Infrastructure(m)) || (IsGateway(m, k) && k in Infrastructure(m))
  {
    hide Compile;
    DependenciesAre(m, k);
  }

  lemma LinkIsDependency(m: Model, ks: seq<string>, i: nat)
    requires Constructed(m) && i < |ks| - 1 && Chain(Compile(m).services, ks)
    ensures ks[i + 1] in Dependencies(m, ks[i])
  {
    hide Compile, Dependencies;
    DependenciesAre(m, ks[i]);
  }

  lemma DependencyIsLink(m: Model, k: string, d: string)
    requires Constructed(m) && d in Dependencies(m, k)
    ensures k in Compile(m).services && d in Compile(m).services[k].dependsOn
  {
    TopIsCompiled(m, k);
    hide Compile;
    DependenciesAre(m, k);
  }

  lemma HostHasNone(m: Model, k: string)
    requires !HostTaken(m) && k in Infrastructure(m)
    ensures Dependencies(m, k) == {}
  {
    hide Infrastructure, OnTop, IsGateway;
  }

  lemma CycleIsRing(m: Model, ks: seq<string>)
    requires Constructed(m) && !HostTaken(m) && |ks| > 1 && Chain(Compile(m).services, ks) && ks[0] == ks[|ks| - 1]
    ensures Ring(m, ks)
  {
    hide Compile, HostTaken, Infrastructure, OnTop, IsGateway, NetworksAt;
    forall i | 0 <= i < |ks| - 1 ensures OnTop(m, ks[i]) && ks[i + 1] in GatewayNames(NetworksAt(m, ks[i])) {
      LinkIsDependency(m, ks, i);
      var next := if i + 1 < |ks| - 1 then i + 1 else 0;
      LinkIsDependency(m, ks, next);
      assert ks[next] == ks[i + 1];
      if ks[i + 1] in Infrastructure(m) {
        HostHasNone(m, ks[next]);
      }
    }
  }

  /** Dependencies are acyclic exactly when no gateway, node or broker takes the name of an enabled host, and
      nodes and brokers named as gateways form no ring. */
  lemma AcyclicIff(m: Model)
    requires Constructed(m)
    ensures Acyclic(m) <==> !HostTaken(m) && forall ks :: !Ring(m, ks)
  {
    hide Compile, Infrastructure, OnTop, IsGateway, NetworksAt;
    if HostTaken(m) {
      var k :| k in Infrastructure(m) && (OnTop(m, k) || IsGateway(m, k));
      DependencyIsLink(m, k, k);
      assert Chain(Compile(m).services, [k, k]);
    }
    if ks :| Ring(m, ks) {
      forall i | 0 <= i < |ks| - 1 ensures ks[i] in Compile(m).services && ks[i + 1] in Compile(m).services[ks[i]].dependsOn {
        DependencyIsLink(m, ks[i], ks[i + 1]);
      }
      assert Chain(Compile(m).services, ks);
    }
    if !HostTaken(m) && forall ks :: !Ring(m, ks) {
      forall ks | |ks| > 1 && Chain(Compile(m).services, ks) ensures ks[0] != ks[|ks| - 1] {
        if ks[0] == ks[|ks| - 1] {
          CycleIsRing(m, ks);
        }
      }
    }
  }

  lemma HostsAreFree(m: Model)
    requires WellNamed(m)
    ensures !HostTaken(m)
  {
    hide WellNamed, OnTop, Infrastructure, NetworksOf, ServicesOf;
    if k :| k in Infrastructure(m) && (OnTop(m, k) || IsGateway(m, k)) {
      KeyIsAlone(m, k);
      assert false;
    }
  }

  /** In a well-named topology nothing but a ring closes a cycle. */
  lemma WellNamedAcyclicIff(m: Model)
    requires Constructed(m) && WellNamed(m)
    ensures Acyclic(m) <==> forall ks :: !Ring(m, ks)
  {
    hide Acyclic, Ring, HostTaken, WellNamed;
    AcyclicIff(m);
    HostsAreFree(m);
  }

  /** A ring needs a node on a network that only a dropped broker has. */
  lemma RingIsUnknown(m: Model, ks: seq<string>)
    requires WellNamed(m) && Ring(m, ks)
    ensures exists n :: n in m.nodes && BrokerNetwork(n).Some? && BrokerNetwork(n).value.name !in NetworkNames(m)
                        && GatewayName(BrokerNetwork(n).value.name) == ks[0]
  {
    hide BrokerNetwork, NetworksOf, NetworkNames, NetworksAt, WellNamed, GatewayName, OnTop, Infrastructure;
    var last := |ks| - 2;
    var net :| net in NetworksAt(m, ks[last]) && ks[last + 1] == GatewayName(net);
    NetworkAtIsKnown(m, ks[last], net);
    if net in NetworkNames(m) {
      KnownGateway(m, net);
      KeyIsAlone(m, ks[0]);
      assert false;
    }
  }

  /** In particular, well-named topologies whose brokers of one name agree on their networks are acyclic. */
  lemma WellNamedAcyclic(m: Model)
    requires Constructed(m) && WellNamed(m) && CoherentBrokers(m)
    ensures Acyclic(m)
  {
    hide Acyclic, CoherentBrokers, BrokerNetwork, NetworkNames, WellNamed, Ring;
    WellNamedAcyclicIff(m);
    if ks :| Ring(m, ks) {
      RingIsUnknown(m, ks);
      var n :| n in m.nodes && BrokerNetwork(n).Some? && BrokerNetwork(n).value.name !in NetworkNames(m);
      AttachedCovered(m, n);
      assert false;
    }
  }

  /** Gateways that compiled services may wait for. */
  function UsedGateways(m: Model): set<string> { GatewayNames(NetworkNames(m)) + BrokerGateways(m) }

  /** Gateways of the broker networks of nodes. */
  function BrokerGateways(m: Model): set<string> {
    set n | n in m.nodes && BrokerNetwork(n).Some? :: GatewayName(BrokerNetwork(n).value.name)
  }

  /** No such gateway is named as a host, no node or broker as a host or such a gateway. */
  predicate LayersApart(m: Model) {
    && UsedGateways(m) !! Infrastructure(m)
    && NodeNames(m) + BrokerNames(m) !! UsedGateways(m) + Infrastructure(m)
  }

  /** Infrastructure, then gateways, then everything else. */
  function Layer(m: Model, k: string): nat {
    if k in Infrastructure(m) then 0 else if k in UsedGateways(m) then 1 else 2
  }

  lemma GatewayIsUsed(m: Model, k: string, net: string)
    requires net in NetworksAt(m, k)
    ensures GatewayName(net) in UsedGateways(m)
  {
    NetworkAtIsKnown(m, k, net);
    hide BrokersOf, NetworkNames, BrokerNetwork, NetworksAt, GatewayName;
  }

  lemma LinkDescends(m: Model, k: string, d: string)
    requires LayersApart(m) && d in Dependencies(m, k)
    ensures Layer(m, d) < Layer(m, k)
  {
    hide Infrastructure, NetworksAt, UsedGateways, BrokersOf, NetworksOf, GatewayName;
    if OnTop(m, k) {
      if d !in Infrastructure(m) {
        var net :| net in NetworksAt(m, k) && d == GatewayName(net);
        GatewayIsUsed(m, k, net);
      }
    } else {
      CompiledGatewayIsUsed(m, k);
    }
  }

  lemma CompiledGatewayIsUsed(m: Model, k: string)
    requires k in Gateways(NetworksOf(m))
    ensures k in UsedGateways(m)
  {
    GatewaysByName(NetworksOf(m), NetworkNames(m));
  }

  lemma {:induction false} ChainDescends(m: Model, ks: seq<string>)
    requires Constructed(m) && LayersApart(m) && ks != [] && Chain(Compile(m).services, ks)
    ensures Layer(m, ks[|ks| - 1]) + |ks| <= Layer(m, ks[0]) + 1
  {
    hide Compile, Layer, LayersApart, Constructed, Dependencies;
    if |ks| > 1 {
      LinkIsDependency(m, ks, 0);
      LinkDescends(m, ks[0], ks[1]);
      var rest := ks[1..];
      assert forall i | 0 <= i < |rest| :: rest[i] == ks[i + 1];
      ChainDescends(m, rest);
    }
  }

  /** When the layers are apart, no chain is longer than a broker or node, a gateway and a host. */
  lemma ChainsAreShort(m: Model, ks: seq<string>)
    requires Constructed(m) && LayersApart(m) && Chain(Compile(m).services, ks)
    ensures |ks| <= 3 && (|ks| > 1 ==> ks[0] != ks[|ks| - 1])
  {
    if ks != [] {
      ChainDescends(m, ks);
    }
  }

  /** In a well-named topology the layers are apart exactly when no host, node or broker is named as the gateway
      of the broker network of a node. */
  lemma WellNamedLayersIff(m: Model)
    requires WellNamed(m)
    ensures LayersApart(m) <==> BrokerGateways(m) !! Infrastructure(m) + NodeNames(m) + BrokerNames(m)
  {
    GatewaysByName(NetworksOf(m), NetworkNames(m));
    hide NetworksOf, NetworkNames, BrokerGateways, Infrastructure, WellNamed, NodeNames, BrokerNames, Gateways;
    forall k | k in Gateways(NetworksOf(m)) + Infrastructure(m)
      ensures k in Gateways(NetworksOf(m)) ==> k !in Infrastructure(m)
      ensures k !in NodeNames(m) + BrokerNames(m)
    {
      KeyIsAlone(m, k);
    }
  }

  /********** Two brokers of one name **********/

  /** A node on network x whose broker is on network y, and an explicit broker of the same name on x. */
  function TwoBrokers(x: Network, y: Network, node: string, broker: string): Model {
    Model([Node(node, "", [], [x], Some(Broker(broker, [y])), None, [], None, 0)], [Broker(broker, [x])],
          Redis(false, "redis", "redis://elsewhere"), DockerProxy(false, "docker_api_proxy"), map[])
  }

  lemma FirstOfTwo<T>(x: T, y: T, name: T -> string)
    requires name(x) == name(y)
    ensures FirstByName([x, y], name) == [x]
  {
    assert [x, y][..1] == [x] && [x][..0] == [] && Names([], name) == {};
    assert FirstByName([x], name) == [x];
    NamesOne(x, name);
  }

  /** The explicit broker is kept. */
  lemma TwoBrokersSets(x: Network, y: Network, node: string, broker: string)
    ensures var m := TwoBrokers(x, y, node, broker);
            && BrokersOf(m) == [Broker(broker, [x])] && NetworksOf(m) == [x]
            && AllServices(m) == [] && ServicesOf(m) == []
  {
    var m := TwoBrokers(x, y, node, broker);
    var b, c := Broker(broker, [x]), Broker(broker, [y]);
    FlatMapOne(m.nodes[0], (n: Node) => if n.broker.Some? then [n.broker.value] else []);
    FlatMapOne(m.nodes[0], (n: Node) => n.networks);
    FlatMapOne(m.nodes[0], (n: Node) => n.services);
    FlatMapOne(b, (b: Broker) => b.networks);
    assert AllBrokers(m) == [b, c];
    FirstOfTwo(b, c, BrokerName);
    assert NetworksUsed(m, [b]) == [x, x];
    FirstOfTwo(x, x, NetName);
  }

  lemma TwoBrokersNamed(x: Network, y: Network, node: string, broker: string)
    requires node != broker && GatewayName(x.name) != node && GatewayName(x.name) != broker
    ensures WellNamed(TwoBrokers(x, y, node, broker))
  {
    hide GatewayDefinition, NodeDefinition, BrokerDefinition, BrokersOf, NetworksOf, ServicesOf, GatewayName;
    var m := TwoBrokers(x, y, node, broker);
    TwoBrokersSets(x, y, node, broker);
    var g, n, b := GatewayEntry(m)(x), NodeEntry(m)(m.nodes[0]), BrokerEntry(m)(Broker(broker, [x]));
    assert Each([x], GatewayEntry(m)) == [g] && Each(m.nodes, NodeEntry(m)) == [n];
    assert Each([Broker(broker, [x])], BrokerEntry(m)) == [b];
    var none: seq<Service> := [];
    assert Each(none, ServiceEntry(m)) == [];
    assert HostEntries(m, [x]) == [];
    assert ServiceEntries(m) == [g, n, b];
  }

  lemma TwoBrokersNode(x: Network, y: Network, node: string, broker: string)
    requires node != broker
    ensures var m := TwoBrokers(x, y, node, broker);
            && Constructed(m) && RendersApart(m) && CoherentServices(m)
            && !Shadowed(m, m.nodes[0]) && BrokerNetwork(m.nodes[0]) == Some(y)
  {
    var m := TwoBrokers(x, y, node, broker);
    TwoBrokersSets(x, y, node, broker);
    NamesOne(Broker(broker, [x]), BrokerName);
  }

  /** The constructor does not compare brokers. Of two brokers of one name the explicit one is kept: the node is
      on a network that nobody defines, and waits for its gateway; when the node itself has that name, it waits
      for itself. */
  lemma TwoBrokersOneName(x: Network, y: Network, node: string, broker: string)
    requires x.name != y.name && node != broker && {node, broker} !! {GatewayName(x.name)}
    ensures var m := TwoBrokers(x, y, node, broker);
            && Constructed(m) && WellNamed(m) && RendersApart(m) && CoherentServices(m)
            && !NetworksDefined(m)
            && (DependenciesDefined(m) <==> GatewayName(y.name) in {node, broker})
            && (node == GatewayName(y.name) ==> !Acyclic(m))
  {
    hide Constructed, WellNamed, RendersApart, CoherentServices, NetworksDefined, DependenciesDefined, Acyclic, TwoBrokers, GatewayName;
    TwoBrokersNamed(x, y, node, broker);
    TwoBrokersNode(x, y, node, broker);
    TwoBrokersUndefined(x, y, node, broker);
    TwoBrokersDependencies(x, y, node, broker);
    if node == GatewayName(y.name) {
      TwoBrokersCycle(x, y, broker);
    }
  }

  lemma TwoBrokersCycle(x: Network, y: Network, broker: string)
    requires broker != GatewayName(y.name)
    ensures !Acyclic(TwoBrokers(x, y, GatewayName(y.name), broker))
  {
    hide Compile, Constructed, BrokersOf, NetworksOf, BrokerNetwork, Shadowed, GatewayName, Dependencies;
    var node := GatewayName(y.name);
    var m := TwoBrokers(x, y, node, broker);
    TwoBrokersNode(x, y, node, broker);
    AttachedDependency(m, m.nodes[0]);
    DependencyIsLink(m, node, node);
    var ks := [node, node];
    assert Chain(Compile(m).services, ks) && ks[0] == ks[1];
  }

  lemma TwoBrokersUndefined(x: Network, y: Network, node: string, broker: string)
    requires x.name != y.name && node != broker
    ensures !NetworksDefined(TwoBrokers(x, y, node, broker))
  {
    hide NetworksDefined, NetworksOf, ServicesOf, BrokerNetwork, Constructed, Shadowed;
    var m := TwoBrokers(x, y, node, broker);
    TwoBrokersNode(x, y, node, broker);
    TwoBrokersSets(x, y, node, broker);
    NamesOne(x, NetName);
    assert PrivateNetworks(m) == {};
    AttachedNames(m.nodes[0]);
    assert y.name in ExtraNetworks(m.nodes[0]);
    NetworksDefinedIff(m);
  }

  lemma TwoBrokersDependencies(x: Network, y: Network, node: string, broker: string)
    requires x.name != y.name && node != broker
    ensures DependenciesDefined(TwoBrokers(x, y, node, broker)) <==> GatewayName(y.name) in {node, broker}
  {
    hide DependenciesDefined, NetworksOf, ServicesOf, BrokersOf, BrokerNetwork, Constructed;
    var m := TwoBrokers(x, y, node, broker);
    TwoBrokersNode(x, y, node, broker);
    TwoBrokersSets(x, y, node, broker);
    NamesOne(Broker(broker, [x]), BrokerName);
    NamesOne(m.nodes[0], NodeName);
    assert Gateways([x]) == {GatewayName(x.name)};
    GatewaysDiffer(x.name, y.name);
    assert DeclaredNames(m) == {GatewayName(x.name), node, broker};
    DependenciesDefinedIff(m);
  }

  lemma GatewaysDiffer(x: string, y: string)
    requires x != y
    ensures GatewayName(x) != GatewayName(y)
  {
    assert GatewayName(x)[3..] == x && GatewayName(y)[3..] == y;
  }

  lemma LastEntriesWin(m: Model, e: Entry<Definition>)
    requires Constructed(m)
    requires (exists n :: n in m.nodes && e == NodeEntry(m)(n) && n.name !in Names(BrokersOf(m), BrokerName))
             || (exists b :: b in BrokersOf(m) && e == BrokerEntry(m)(b))
    ensures e.key in Compile(m).services && Compile(m).services[e.key] == e.value
  {
    hide BrokersOf, NetworksOf, ServicesOf, NodeDefinition, BrokerDefinition;
    var before := HostEntries(m, NetworksOf(m)) + Each(NetworksOf(m), GatewayEntry(m)) + Each(ServicesOf(m), ServiceEntry(m));
    var nodes, brokers := Each(m.nodes, NodeEntry(m)), Each(BrokersOf(m), BrokerEntry(m));
    MapOfConcat(before + nodes, brokers);
    MapOfConcat(before, nodes);
    assert ServiceEntries(m) == before + nodes + brokers;
    hide Services, HostEntries;
    FirstByNameCollects(AllBrokers(m), BrokerName);
    KeysDistinct(m.nodes, NodeName, NodeEntry(m));
    BrokersDistinct(m);
    EachMember(m.nodes, NodeEntry(m), e);
    EachMember(BrokersOf(m), BrokerEntry(m), e);
    MapOfIs(brokers, e.key);
    if e in brokers {
      MapOfDistinct(brokers, e);
    } else {
      MapOfDistinct(nodes, e);
      if f :| f in brokers && f.key == e.key {
        EachMember(BrokersOf(m), BrokerEntry(m), f);
      }
    }
  }

  lemma KeysDistinct<T>(xs: seq<T>, name: T -> string, entry: T -> Entry<Definition>)
    requires DistinctNames(xs, name) && forall x :: entry(x).key == name(x)
    ensures DistinctNames(Each(xs, entry), Key)
  {
  }

  lemma BrokersDistinct(m: Model)
    ensures DistinctNames(Each(BrokersOf(m), BrokerEntry(m)), Key)
  {
    FirstByNameCollects(AllBrokers(m), BrokerName);
    KeysDistinct(BrokersOf(m), BrokerName, BrokerEntry(m));
  }

  /** The topology configuration reaches every node and broker, and overrides what they set themselves. */
  lemma ConfigReaches(m: Model, k: string)
    requires Constructed(m) && k in Names(m.nodes, NodeName) + Names(BrokersOf(m), BrokerName)
    ensures k in Compile(m).services
    ensures forall v | v in Config(m) :: v in Compile(m).services[k].environment
                                         && Compile(m).services[k].environment[v] == Config(m)[v]
  {
    hide BrokersOf;
    if b :| b in BrokersOf(m) && b.name == k {
      LastEntriesWin(m, BrokerEntry(m)(b));
    } else {
      var n :| n in m.nodes && n.name == k;
      LastEntriesWin(m, NodeEntry(m)(n));
    }
  }

  /********** Order and repetition **********/

  lemma SameEntries<V>(es: seq<Entry<V>>, fs: seq<Entry<V>>)
    requires Coherent(es, Key) && forall e :: e in es <==> e in fs
    ensures MapOf(es) == MapOf(fs)
  {
    forall k ensures k in MapOf(es) <==> k in MapOf(fs) {
      MapOfIs(es, k);
      MapOfIs(fs, k);
    }
    forall k | k in MapOf(es) ensures MapOf(es)[k] == MapOf(fs)[k] {
      MapOfIs(es, k);
      MapOfIs(fs, k);
      var e, f := Entry(k, MapOf(es)[k]), Entry(k, MapOf(fs)[k]);
      assert Key(e) == Key(f);
    }
  }

  lemma SameEach<T, V>(xs: seq<T>, ys: seq<T>, name: T -> string, entry: T -> Entry<V>)
    requires Coherent(xs, name) && forall x :: entry(x).key == name(x)
    requires forall x :: x in xs <==> x in ys
    ensures MapOf(Each(xs, entry)) == MapOf(Each(ys, entry))
  {
    forall e ensures e in Each(xs, entry) <==> e in Each(ys, entry) {
      EachMember(xs, entry, e);
      EachMember(ys, entry, e);
    }
    forall e, f | e in Each(xs, entry) && f in Each(xs, entry) && Key(e) == Key(f) ensures e == f {
      EachMember(xs, entry, e);
      EachMember(xs, entry, f);
    }
    SameEntries(Each(xs, entry), Each(ys, entry));
  }

  /** The choice of each set is determined up to order. */
  ghost predicate Deterministic(m: Model) {
    && Coherent(AllBrokers(m), BrokerName)
    && Coherent(NetworksUsed(m, AllBrokers(m)), NetName)
    && Coherent(AllServices(m), ServiceName)
  }

  lemma SameNetworks(m: Model, bs: seq<Broker>, nets: seq<Network>)
    requires Deterministic(m) && Collects(bs, AllBrokers(m), BrokerName) && Collects(nets, NetworksUsed(m, bs), NetName)
    ensures forall b :: b in bs <==> b in AllBrokers(m)
    ensures forall net :: net in nets <==> net in NetworksUsed(m, AllBrokers(m))
  {
    CollectsAll(bs, AllBrokers(m), BrokerName);
    forall net ensures net in NetworksUsed(m, bs) <==> net in NetworksUsed(m, AllBrokers(m)) {
      NetworksUsedAre(m, bs, net);
      NetworksUsedAre(m, AllBrokers(m), net);
    }
    hide NetworksUsed, AllBrokers;
    CollectsAll(nets, NetworksUsed(m, bs), NetName);
  }

  lemma SameServiceNetworks(m: Model, ss: seq<Service>, ts: seq<Service>)
    requires forall s :: s in ss <==> s in ts
    ensures MapOf(FlatMap(ss, ServiceNetworks(m))) == MapOf(FlatMap(ts, ServiceNetworks(m)))
  {
    var es, fs := FlatMap(ss, ServiceNetworks(m)), FlatMap(ts, ServiceNetworks(m));
    forall e ensures e in es <==> e in fs {
      FlatMapMember(ss, ServiceNetworks(m), e);
      FlatMapMember(ts, ServiceNetworks(m), e);
    }
    forall e | e in es ensures e.value == SERVICE_NETWORK.(name := e.key) {
      FlatMapMember(ss, ServiceNetworks(m), e);
      var s :| s in ss && e in ServiceNetworks(m)(s);
      EachMember(ServiceNodes(m, s), ServiceNetworkEntry(s), e);
    }
    SameEntries(es, fs);
  }

  lemma SameServices(m: Model, bs: seq<Broker>, cs: seq<Broker>, nets: seq<Network>, mets: seq<Network>,
                     ss: seq<Service>, ts: seq<Service>)
    requires Coherent(bs, BrokerName) && Coherent(nets, NetName) && Coherent(ss, ServiceName)
    requires (forall b :: b in bs <==> b in cs) && (forall n :: n in nets <==> n in mets) && (forall s :: s in ss <==> s in ts)
    ensures MapOf(Services(m, bs, nets, ss)) == MapOf(Services(m, cs, mets, ts))
  {
    hide MapOf, Each, NodeDefinition, BrokerDefinition, GatewayDefinition, ServiceDefinition;
    assert Names(nets, NetName) == Names(mets, NetName);
    SameGateways(m, nets, mets);
    SameEach(ss, ts, ServiceName, ServiceEntry(m));
    SameEach(bs, cs, BrokerName, BrokerEntry(m));
    ServicesSplit(m, bs, nets, ss);
    ServicesSplit(m, cs, mets, ts);
  }

  lemma SameGateways(m: Model, nets: seq<Network>, mets: seq<Network>)
    requires Coherent(nets, NetName) && forall n :: n in nets <==> n in mets
    ensures MapOf(Each(nets, GatewayEntry(m))) == MapOf(Each(mets, GatewayEntry(m)))
  {
    var name := (net: Network) => GatewayName(net.name);
    forall x, y | x in nets && y in nets && name(x) == name(y) ensures x == y {
      if x.name != y.name {
        GatewaysDiffer(x.name, y.name);
      }
      assert NetName(x) == NetName(y);
    }
    SameEach(nets, mets, name, GatewayEntry(m));
  }

  lemma ServicesSplit(m: Model, bs: seq<Broker>, nets: seq<Network>, ss: seq<Service>)
    ensures MapOf(Services(m, bs, nets, ss)) ==
            MapOf(HostEntries(m, nets)) + MapOf(Each(nets, GatewayEntry(m))) + MapOf(Each(ss, ServiceEntry(m)))
            + MapOf(Each(m.nodes, NodeEntry(m))) + MapOf(Each(bs, BrokerEntry(m)))
  {
    hide MapOf, Each, HostEntries;
    var h, g, s := HostEntries(m, nets), Each(nets, GatewayEntry(m)), Each(ss, ServiceEntry(m));
    var n, b := Each(m.nodes, NodeEntry(m)), Each(bs, BrokerEntry(m));
    MapOfConcat(h, g);
    MapOfConcat(h + g, s);
    MapOfConcat(h + g + s, n);
    MapOfConcat(h + g + s + n, b);
  }

  /** Whatever order the sets come in, the definition is the same, when equal names mean equal values. */
  lemma OrderIrrelevant(m: Model, bs: seq<Broker>, nets: seq<Network>, ss: seq<Service>)
    requires Deterministic(m)
    requires Collects(bs, AllBrokers(m), BrokerName) && Collects(nets, NetworksUsed(m, bs), NetName)
    requires Collects(ss, AllServices(m), ServiceName)
    ensures CompileFrom(m, bs, nets, ss) == Compile(m)
  {
    FirstByNameCollects(AllBrokers(m), BrokerName);
    FirstByNameCollects(NetworksUsed(m, BrokersOf(m)), NetName);
    FirstByNameCollects(AllServices(m), ServiceName);
    SameNetworks(m, bs, nets);
    SameNetworks(m, BrokersOf(m), NetworksOf(m));
    CollectsAll(ss, AllServices(m), ServiceName);
    CollectsAll(ServicesOf(m), AllServices(m), ServiceName);
    hide FirstByName, AllBrokers, AllServices, NetworksUsed, Services, BrokersOf, NetworksOf, ServicesOf, MapOf, ServiceNetworks;
    SameServices(m, bs, BrokersOf(m), nets, NetworksOf(m), ss, ServicesOf(m));
    SameServiceNetworks(m, ss, ServicesOf(m));
    SameEach(nets, NetworksOf(m), NetName, NetworkEntry);
    MapOfConcat(Each(nets, NetworkEntry), FlatMap(ss, ServiceNetworks(m)));
    MapOfConcat(Each(NetworksOf(m), NetworkEntry), FlatMap(ServicesOf(m), ServiceNetworks(m)));
  }

  lemma EachCong<A, B>(xs: seq<A>, f: A -> B, g: A -> B)
    requires forall x | x in xs :: f(x) == g(x)
    ensures Each(xs, f) == Each(xs, g)
  {
  }

  lemma EntriesIgnoreBrokers(m: Model, g: Model, bs: seq<Broker>, nets: seq<Network>, ss: seq<Service>)
    requires g == m.(explicit := g.explicit)
    ensures Services(g, bs, nets, ss) == Services(m, bs, nets, ss)
    ensures CompileFrom(g, bs, nets, ss) == CompileFrom(m, bs, nets, ss)
  {
    assert forall s :: ServiceNodes(g, s) == ServiceNodes(m, s);
    EachCong(nets, GatewayEntry(m), GatewayEntry(g));
    EachCong(ss, ServiceEntry(m), ServiceEntry(g));
    EachCong(m.nodes, NodeEntry(m), NodeEntry(g));
    EachCong(bs, BrokerEntry(m), BrokerEntry(g));
    NetworksIgnoreBrokers(m, g, nets, ss);
  }

  lemma NetworksIgnoreBrokers(m: Model, g: Model, nets: seq<Network>, ss: seq<Service>)
    requires g == m.(explicit := g.explicit)
    ensures Networks(g, nets, ss) == Networks(m, nets, ss)
  {
    assert forall s :: ServiceNodes(g, s) == ServiceNodes(m, s);
    FlatMapCong(ss, ServiceNetworks(m), ServiceNetworks(g));
  }

  /** Compiling is unaffected by what earlier compilations did to the list of brokers. */
  lemma CompileAgain(m: Model, times: nat)
    ensures Compile(Grown(m, times)) == Compile(m) && ServiceEntries(Grown(m, times)) == ServiceEntries(m)
  {
    hide BrokersOf, NetworksOf, Grown;
    GrownIs(m, times);
    EntriesIgnoreBrokers(m, Grown(m, times), BrokersOf(m), NetworksOf(m), ServicesOf(m));
  }
}
