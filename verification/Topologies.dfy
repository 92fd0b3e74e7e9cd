/** Topologies (wotemu/topology/models.py): named networks, brokers, services and nodes, compared by name
    and collected into sets. */
module Topologies {
  import opened Collections

  datatype Network = Network(name: string, netem: seq<string>)

  /** A generic service is compared by name in sets, but by reference when its nodes are looked up. */
  class Service {
    const name: string
    const image: string
    const params: Params

    constructor (name: string, image: string, params: Params)
      ensures this.name == name && this.image == image && this.params == params
    {
      this.name, this.image, this.params := name, image, params;
    }
  }

  /** The optional parameters of a service; the condition of its restart policy. */
  datatype Params = Params(env: map<string, string>, labels: map<string, string>, condition: Option<string>, mode: Option<string>)

  /** Hardware constraints of a node; a value that counts as false is none. */
  datatype NodeResources = NodeResources(cpuLimit: Option<string>, memLimit: Option<string>, cpuReservation: Option<string>,
                                         memReservation: Option<string>, speed: Option<string>)

  datatype Broker = Broker(name: string, networks: seq<Network>)

  /** A scale of zero is none. */
  datatype Node = Node(name: string, image: string, command: seq<string>, networks: seq<Network>, broker: Option<Broker>,
                       brokerNetwork: Option<Network>, services: seq<Service>, resources: Option<NodeResources>, scale: nat)

  datatype Redis = Redis(enabled: bool, host: string, url: string)

  datatype DockerProxy = DockerProxy(enabled: bool, host: string)

  /** What a topology holds at some moment. */
  datatype Model = Model(nodes: seq<Node>, explicit: seq<Broker>, redis: Redis, proxy: DockerProxy,
                         ports: map<string, Option<string>>)

  function NetName(n: Network): string { n.name }
  function BrokerName(b: Broker): string { b.name }
  function ServiceName(s: Service): string { s.name }
  function NodeName(n: Node): string { n.name }

  function GatewayName(net: string): string { "gw_" + net }

  function ServiceNetworkName(srv: string, node: string): string { "srvnet_" + srv + "_" + node }

  function GatewayOf(net: Network): string { GatewayName(net.name) }

  function PrivateNetwork(s: Service): Node -> string { (n: Node) => ServiceNetworkName(s.name, n.name) }

  /********** Sets of named values **********/

  function Names<T(==)>(xs: seq<T>, name: T -> string): set<string> { set x | x in xs :: name(x) }

  predicate DistinctNames<T>(xs: seq<T>, name: T -> string) {
    forall i, j | 0 <= i < j < |xs| :: name(xs[i]) != name(xs[j])
  }

  /** Equal names mean equal values. */
  ghost predicate Coherent<T>(xs: seq<T>, name: T -> string) {
    forall x, y | x in xs && y in xs && name(x) == name(y) :: x == y
  }

  /** `list(set(xs))` in the order of insertion; the first of equal elements is kept. */
  function FirstByName<T(==)>(xs: seq<T>, name: T -> string): seq<T> {
    if xs == [] then []
    else
      var init, x := FirstByName(xs[..|xs| - 1], name), xs[|xs| - 1];
      if name(x) in Names(init, name) then init else init + [x]
  }

  /** `r` holds the elements of the set of `xs`, in some order, with some choice among equal elements. */
  ghost predicate Collects<T>(r: seq<T>, xs: seq<T>, name: T -> string) {
    && DistinctNames(r, name)
    && Names(r, name) == Names(xs, name)
    && (forall x | x in r :: x in xs)
  }

  lemma NamesConcat<T>(xs: seq<T>, ys: seq<T>, name: T -> string)
    ensures Names(xs + ys, name) == Names(xs, name) + Names(ys, name)
  {
  }

  lemma NamesOne<T>(x: T, name: T -> string)
    ensures Names([x], name) == {name(x)}
  {
    assert x in [x];
  }

  lemma DistinctAppend<T>(xs: seq<T>, x: T, name: T -> string)
    requires DistinctNames(xs, name) && name(x) !in Names(xs, name)
    ensures DistinctNames(xs + [x], name)
  {
    forall i, j | 0 <= i < j < |xs + [x]| ensures name((xs + [x])[i]) != name((xs + [x])[j]) {
      assert xs[i] in xs;
    }
  }

  lemma {:induction false} FirstByNameCollects<T>(xs: seq<T>, name: T -> string)
    ensures Collects(FirstByName(xs, name), xs, name)
  {
    if xs != [] {
      var init, x := xs[..|xs| - 1], xs[|xs| - 1];
      FirstByNameCollects(init, name);
      assert xs == init + [x];
      NamesConcat(init, [x], name);
      var f := FirstByName(init, name);
      if name(x) !in Names(f, name) {
        DistinctAppend(f, x, name);
        NamesConcat(f, [x], name);
      }
    }
  }

  /** Of equal elements the first is kept, and the first ones keep their order. */
  lemma {:induction false} FirstByNameIsFirst<T>(xs: seq<T>, name: T -> string, i: nat)
    requires i < |xs|
    ensures (forall j | 0 <= j < i :: name(xs[j]) != name(xs[i])) ==>
              |FirstByName(xs[..i], name)| < |FirstByName(xs, name)|
              && FirstByName(xs, name)[|FirstByName(xs[..i], name)|] == xs[i]
    ensures FirstByName(xs[..i], name) <= FirstByName(xs, name)
  {
    var init := xs[..|xs| - 1];
    if i < |xs| - 1 {
      FirstByNameIsFirst(init, name, i);
      assert init[..i] == xs[..i] && forall j | 0 <= j <= i :: init[j] == xs[j];
    } else {
      FirstByNameCollects(init, name);
      assert init == xs[..i];
      if name(xs[i]) in Names(init, name) {
        var x :| x in init && name(x) == name(xs[i]);
        var j :| 0 <= j < |init| && init[j] == x;
        assert xs[j] == x;
      }
    }
  }

  /** Adding elements whose names are already there changes nothing. */
  lemma {:induction false} FirstByNameAbsorbs<T>(xs: seq<T>, ys: seq<T>, name: T -> string)
    requires Names(ys, name) <= Names(xs, name)
    ensures FirstByName(xs + ys, name) == FirstByName(xs, name)
    decreases |ys|
  {
    if ys == [] {
      assert xs + ys == xs;
    } else {
      var init, y := ys[..|ys| - 1], ys[|ys| - 1];
      assert (xs + ys)[..|xs + ys| - 1] == xs + init;
      assert name(y) in Names(ys, name);
      assert Names(init, name) <= Names(ys, name);
      FirstByNameAbsorbs(xs, init, name);
      FirstByNameCollects(xs, name);
    }
  }

  /** When equal names mean equal values, a set is determined up to order. */
  lemma CollectsAll<T>(r: seq<T>, xs: seq<T>, name: T -> string)
    requires Collects(r, xs, name) && Coherent(xs, name)
    ensures forall x :: x in r <==> x in xs
  {
    forall x | x in xs ensures x in r {
      assert name(x) in Names(r, name);
      var y :| y in r && name(y) == name(x);
    }
  }

  lemma DistinctMeans<T>(xs: seq<T>, name: T -> string, x: T, y: T)
    requires DistinctNames(xs, name) && x in xs && y in xs && name(x) == name(y)
    ensures x == y
  {
    var i :| 0 <= i < |xs| && xs[i] == x;
    var j :| 0 <= j < |xs| && xs[j] == y;
    assert !(i < j) && !(j < i);
  }

  /** A list has as many names as elements exactly when its names are distinct. */
  lemma {:induction false} SizeOfNames<T>(xs: seq<T>, name: T -> string)
    ensures |Names(xs, name)| <= |xs|
    ensures |Names(xs, name)| == |xs| <==> DistinctNames(xs, name)
  {
    if xs != [] {
      var init, x := xs[..|xs| - 1], xs[|xs| - 1];
      SizeOfNames(init, name);
      assert xs == init + [x];
      NamesConcat(init, [x], name);
      NamesOne(x, name);
      if name(x) in Names(init, name) {
        assert Names(xs, name) == Names(init, name);
        var y :| y in init && name(y) == name(x);
        var i :| 0 <= i < |init| && init[i] == y;
        assert name(xs[i]) == name(xs[|xs| - 1]);
      } else {
        assert |Names(xs, name)| == |Names(init, name)| + 1;
        if DistinctNames(init, name) {
          DistinctAppend(init, x, name);
        }
      }
    }
  }

  /********** Nodes **********/

  /** What the constructor of a node guarantees. */
  predicate NodeOk(n: Node) {
    && DistinctNames(n.services, ServiceName)
    && (n.broker.Some? && n.brokerNetwork.Some? ==> n.brokerNetwork.value.name in Names(n.broker.value.networks, NetName))
  }

  datatype NewNode = Built(node: Node) | ValueError

  /** The constructor of a node whose application has MQTT enabled or not. */
  function MakeNode(mqtt: bool, n: Node): (r: NewNode)
    ensures r.ValueError? <==>
              || (mqtt && n.broker.None?)
              || (n.broker.Some? && n.brokerNetwork.Some?
                  && n.brokerNetwork.value.name !in Names(n.broker.value.networks, NetName))
    ensures r.Built? ==> NodeOk(r.node) && Collects(r.node.services, n.services, ServiceName)
    ensures r.Built? ==> r.node == n.(services := r.node.services)
  {
    FirstByNameCollects(n.services, ServiceName);
    if mqtt && n.broker.None? then ValueError
    else if n.broker.Some? && n.brokerNetwork.Some?
            && n.brokerNetwork.value.name !in Names(n.broker.value.networks, NetName) then ValueError
    else Built(n.(services := FirstByName(n.services, ServiceName)))
  }

  datatype Failure = AssertionError | IndexError

  /** How `broker_network` fails: an explicit network that its broker no longer has, or a broker without
      networks. */
  function BrokerFailure(n: Node): (r: Option<Failure>)
    ensures r == Some(AssertionError) <==>
              n.broker.Some? && n.brokerNetwork.Some? && forall net | net in n.broker.value.networks :: net.name != n.brokerNetwork.value.name
    ensures r == Some(IndexError) <==> n.broker.Some? && n.brokerNetwork.None? && n.broker.value.networks == []
  {
    if n.broker.None? then None
    else if n.brokerNetwork.Some? then
      if n.brokerNetwork.value.name in Names(n.broker.value.networks, NetName) then None else Some(AssertionError)
    else if n.broker.value.networks == [] then Some(IndexError) else None
  }

  predicate BrokerFails(n: Node) { BrokerFailure(n).Some? }

  /** `broker_network`, when there is one to take: the given one, or the first of the broker. */
  function BrokerNetwork(n: Node): (r: Option<Network>)
    ensures r.Some? <==> n.broker.Some? && !BrokerFails(n)
    ensures r.Some? ==> r.value.name in Names(n.broker.value.networks, NetName)
    ensures r.Some? && n.brokerNetwork.Some? ==> r == n.brokerNetwork
    ensures r.Some? && n.brokerNetwork.None? ==> n.broker.value.networks != [] && r.value == n.broker.value.networks[0]
  {
    if n.broker.None? || BrokerFails(n) then None
    else if n.brokerNetwork.Some? then n.brokerNetwork
    else
      var first := n.broker.value.networks[0];
      assert NetName(first) in Names(n.broker.value.networks, NetName);
      Some(first)
  }

  /** The network a node is on because of its broker. */
  function Attached(n: Node): seq<Network> { match BrokerNetwork(n) case None => [] case Some(net) => [net] }

  /** The failure of the first node that has one. */
  function FirstFailure(nodes: seq<Node>): Option<Failure> {
    if nodes == [] then None
    else if BrokerFails(nodes[0]) then BrokerFailure(nodes[0])
    else FirstFailure(nodes[1..])
  }

  lemma {:induction false} FirstFailureFrom(nodes: seq<Node>, i: nat)
    requires i <= |nodes| && forall j | 0 <= j < i :: !BrokerFails(nodes[j])
    ensures FirstFailure(nodes) == FirstFailure(nodes[i..])
  {
    hide BrokerFails;
    if i == 0 {
      assert nodes[0..] == nodes;
    } else {
      var rest := nodes[1..];
      assert forall j | 0 <= j < i - 1 :: rest[j] == nodes[j + 1];
      FirstFailureFrom(rest, i - 1);
      assert rest[i - 1..] == nodes[i..];
    }
  }

  /********** Collections of a topology **********/

  function NodeBrokers(nodes: seq<Node>): seq<Broker> {
    FlatMap(nodes, (n: Node) => if n.broker.Some? then [n.broker.value] else [])
  }

  function AllBrokers(m: Model): seq<Broker> { m.explicit + NodeBrokers(m.nodes) }

  function BrokersOf(m: Model): seq<Broker> { FirstByName(AllBrokers(m), BrokerName) }

  function NetworksUsed(m: Model, brokers: seq<Broker>): seq<Network> {
    FlatMap(m.nodes, (n: Node) => n.networks) + FlatMap(brokers, (b: Broker) => b.networks)
  }

  function NetworksOf(m: Model): seq<Network> { FirstByName(NetworksUsed(m, BrokersOf(m)), NetName) }

  function AllServices(m: Model): seq<Service> { FlatMap(m.nodes, (n: Node) => n.services) }

  function ServicesOf(m: Model): seq<Service> { FirstByName(AllServices(m), ServiceName) }

  /** `get_service_nodes`: the nodes that hold this very object. */
  function ServiceNodes(m: Model, s: Service): seq<Node> {
    FirstByName(FlatMap(m.nodes, (n: Node) => if s in n.services then [n] else []), NodeName)
  }

  lemma ServiceNodesAre(m: Model, s: Service)
    requires DistinctNames(m.nodes, NodeName)
    ensures forall n :: n in ServiceNodes(m, s) <==> n in m.nodes && s in n.services
  {
    var f := (n: Node) => if s in n.services then [n] else [];
    var ns := FlatMap(m.nodes, f);
    FirstByNameCollects(ns, NodeName);
    forall n ensures n in ns <==> n in m.nodes && s in n.services {
      FlatMapMember(m.nodes, f, n);
    }
    forall x, y | x in ns && y in ns && NodeName(x) == NodeName(y) ensures x == y {
      DistinctMeans(m.nodes, NodeName, x, y);
    }
    CollectsAll(ServiceNodes(m, s), ns, NodeName);
  }

  lemma AllServicesAre(m: Model, s: Service)
    ensures s in AllServices(m) <==> exists n :: n in m.nodes && s in n.services
  {
    FlatMapMember(m.nodes, (n: Node) => n.services, s);
  }

  lemma NodeBrokersAre(nodes: seq<Node>, b: Broker)
    ensures b in NodeBrokers(nodes) <==> exists n :: n in nodes && n.broker == Some(b)
  {
    var f := (n: Node) => if n.broker.Some? then [n.broker.value] else [];
    FlatMapMember(nodes, f, b);
    assert forall n :: b in f(n) <==> n.broker == Some(b);
  }

  /** The brokers of the nodes, in order and as often as nodes have them. */
  lemma NodeBrokersNext(nodes: seq<Node>, n: Node)
    ensures NodeBrokers([]) == []
    ensures NodeBrokers(nodes + [n]) == NodeBrokers(nodes) + if n.broker.Some? then [n.broker.value] else []
  {
    var f := (n: Node) => if n.broker.Some? then [n.broker.value] else [];
    FlatMapConcat(nodes, [n], f);
    FlatMapOne(n, f);
  }

  /** The services and networks of the nodes, node by node. */
  lemma NodeListsNext(m: Model, n: Node)
    ensures AllServices(m.(nodes := [])) == [] && AllServices(m.(nodes := m.nodes + [n])) == AllServices(m) + n.services
    ensures NetworksUsed(m.(nodes := []), []) == []
    ensures NetworksUsed(m.(nodes := m.nodes + [n]), []) == NetworksUsed(m, []) + n.networks
  {
    FlatMapConcat(m.nodes, [n], (n: Node) => n.services);
    FlatMapOne(n, (n: Node) => n.services);
    FlatMapConcat(m.nodes, [n], (n: Node) => n.networks);
    FlatMapOne(n, (n: Node) => n.networks);
  }

  /** Explicit brokers are kept before those of nodes. */
  lemma ExplicitBrokersKept(m: Model, b: Broker)
    requires b in BrokersOf(m) && b.name in Names(m.explicit, BrokerName)
    ensures b in m.explicit
  {
    KeptFromFront(m.explicit, NodeBrokers(m.nodes), BrokerName, b);
  }

  /** Of networks of one name, one that a node lists is kept before one that only a broker has. */
  lemma NodeNetworksKept(m: Model, net: Network)
    requires net in NetworksOf(m) && exists n, x :: n in m.nodes && x in n.networks && x.name == net.name
    ensures exists n :: n in m.nodes && net in n.networks
  {
    var n, x :| n in m.nodes && x in n.networks && x.name == net.name;
    var own := FlatMap(m.nodes, (n: Node) => n.networks);
    FlatMapMember(m.nodes, (n: Node) => n.networks, x);
    assert NetName(x) in Names(own, NetName);
    KeptFromFront(own, FlatMap(BrokersOf(m), (b: Broker) => b.networks), NetName, net);
    FlatMapMember(m.nodes, (n: Node) => n.networks, net);
  }

  lemma {:induction false} KeptFromFront<T>(xs: seq<T>, ys: seq<T>, name: T -> string, x: T)
    requires x in FirstByName(xs + ys, name) && name(x) in Names(xs, name)
    ensures x in xs
    decreases |ys|
  {
    if ys == [] {
      assert xs + ys == xs;
    } else {
      var init := ys[..|ys| - 1];
      assert (xs + ys)[..|xs + ys| - 1] == xs + init;
      FirstByNameCollects(xs + init, name);
      NamesConcat(xs, init, name);
      if x in FirstByName(xs + init, name) {
        KeptFromFront(xs, init, name, x);
      }
      FirstByNameCollects(xs + ys, name);
    }
    FirstByNameCollects(xs, name);
  }

  lemma NetworksUsedAre(m: Model, brokers: seq<Broker>, net: Network)
    ensures net in NetworksUsed(m, brokers) <==>
            (exists n :: n in m.nodes && net in n.networks) || (exists b :: b in brokers && net in b.networks)
  {
    FlatMapMember(m.nodes, (n: Node) => n.networks, net);
    FlatMapMember(brokers, (b: Broker) => b.networks, net);
  }

  /** An access to `brokers` appends the brokers of the nodes to a non-empty explicit list. */
  function Grow(m: Model): Model {
    if m.explicit == [] then m else m.(explicit := m.explicit + NodeBrokers(m.nodes))
  }

  /** After so many accesses. */
  function Grown(m: Model, times: nat): Model {
    if times == 0 then m else Grow(Grown(m, times - 1))
  }

  lemma GrowKeepsSets(m: Model)
    ensures BrokersOf(Grow(m)) == BrokersOf(m) && NetworksOf(Grow(m)) == NetworksOf(m)
  {
    var nb := NodeBrokers(m.nodes);
    NamesConcat(m.explicit, nb, BrokerName);
    FirstByNameAbsorbs(AllBrokers(m), nb, BrokerName);
  }

  lemma {:induction false} GrownIs(m: Model, times: nat)
    ensures BrokersOf(Grown(m, times)) == BrokersOf(m) && NetworksOf(Grown(m, times)) == NetworksOf(m)
    ensures Grown(m, times) == m.(explicit := Grown(m, times).explicit)
  {
    if times > 0 {
      hide BrokersOf, NetworksOf;
      GrownIs(m, times - 1);
      GrowKeepsSets(Grown(m, times - 1));
    }
  }

  lemma GrowLength(m: Model)
    ensures |Grow(m).explicit| == if m.explicit == [] then 0 else |m.explicit| + |NodeBrokers(m.nodes)|
  {
  }

  /** A non-empty list of brokers grows by the brokers of all nodes each time. */
  lemma {:induction false} GrownLength(m: Model, times: nat)
    ensures |Grown(m, times).explicit| == if m.explicit == [] then 0 else |m.explicit| + times * |NodeBrokers(m.nodes)|
  {
    hide NodeBrokers, Grow, BrokersOf, NetworksOf;
    if times > 0 {
      var before := Grown(m, times - 1);
      GrownLength(m, times - 1);
      GrownIs(m, times - 1);
      GrowLength(before);
      OneMore(times, |NodeBrokers(m.nodes)|);
    }
  }
}
