/** What the definition of a topology is (wotemu/topology/compose.py), stated on values: one entry per
    compiled service and network, later entries overwriting earlier ones of the same name. */
module ComposeSpec {
  import opened Collections
  import opened Topologies

  datatype Resources = Resources(limits: map<string, string>, reservations: map<string, string>)

  datatype Deploy = Deploy(constraints: seq<string>, condition: Option<string>, mode: Option<string>, replicas: nat,
                           resources: Option<Resources>)

  const NO_DEPLOY := Deploy([], None, None, 0, None)

  /** A Compose service; an absent entry is empty. */
  datatype Definition = Definition(image: string, command: seq<string>, hostname: string, environment: map<string, string>,
                                   labels: map<string, string>, networks: set<string>, dependsOn: set<string>,
                                   ports: seq<string>, capAdd: seq<string>, volumes: seq<string>, deploy: Deploy)

  datatype NetworkDefinition = NetworkDefinition(name: string, driver: string, attachable: bool, labels: map<string, string>)

  datatype Compose = Compose(services: map<string, Definition>, networks: map<string, NetworkDefinition>)

  const BASE_IMAGE: string := "agmangas/wotemu"

  const ENVIRONMENT_BASE: map<string, string> := map[
    "NODE_HOSTNAME" := "{{.Node.Hostname}}", "NODE_ID" := "{{.Node.ID}}",
    "SERVICE_NAME" := "{{.Service.Name}}", "SERVICE_ID" := "{{.Service.ID}}"]

  const ENVIRONMENT_PROXY: map<string, string> := map[
    "CONTAINERS" := "1", "NETWORKS" := "1", "TASKS" := "1", "SERVICES" := "1", "NODES" := "1"]

  const DOCKER_SOCKET := ["/var/run/docker.sock:/var/run/docker.sock"]
  const TASK_NAME := "{{.Task.Name}}"

  /** The module-level templates. */
  const PROXY: Definition :=
    Definition("tecnativa/docker-socket-proxy", [], "", ENVIRONMENT_PROXY, map[], {}, {}, [], ["ALL"], DOCKER_SOCKET,
               NO_DEPLOY.(constraints := ["node.role == manager"]))
  const REDIS: Definition :=
    Definition("redis:5", [], "", map[], map["org.fundacionctic.wotemu.redis" := ""], {}, {}, [], [], [], NO_DEPLOY)
  const GENERIC: Definition :=
    Definition("", [], TASK_NAME, ENVIRONMENT_BASE, map["org.fundacionctic.wotemu.service" := ""], {}, {}, [], [], [], NO_DEPLOY)
  const GATEWAY: Definition :=
    Definition("", [], TASK_NAME, ENVIRONMENT_BASE, map["org.fundacionctic.wotemu.gw" := ""], {}, {}, [], ["ALL"], DOCKER_SOCKET,
               NO_DEPLOY)
  const BROKER: Definition := GATEWAY.(labels := map["org.fundacionctic.wotemu.broker" := ""])
  const NODE: Definition := GATEWAY.(labels := map["org.fundacionctic.wotemu.node" := ""])

  const NETWORK := NetworkDefinition("", "overlay", true, map["org.fundacionctic.wotemu.net" := ""])
  const SERVICE_NETWORK := NETWORK.(labels := map["org.fundacionctic.wotemu.servicenet" := ""])

  /********** Entries **********/

  datatype Entry<V> = Entry(key: string, value: V)

  function Key<V>(e: Entry<V>): string { e.key }

  /** A dict updated with every entry in turn. */
  function MapOf<V>(es: seq<Entry<V>>): map<string, V> {
    if es == [] then map[] else MapOf(es[..|es| - 1])[es[|es| - 1].key := es[|es| - 1].value]
  }

  function Each<A, B>(xs: seq<A>, f: A -> B): (r: seq<B>)
    ensures |r| == |xs| && forall i | 0 <= i < |xs| :: r[i] == f(xs[i])
  {
    seq(|xs|, i requires 0 <= i < |xs| => f(xs[i]))
  }

  lemma EachMember<A, B>(xs: seq<A>, f: A -> B, y: B)
    ensures y in Each(xs, f) <==> exists x :: x in xs && y == f(x)
  {
    forall x | x in xs && y == f(x) ensures y in Each(xs, f) {
      var i :| 0 <= i < |xs| && xs[i] == x;
      assert Each(xs, f)[i] == y;
    }
  }

  /** The keys are those of the entries, and each value comes from an entry. */
  lemma {:induction false} MapOfIs<V>(es: seq<Entry<V>>, k: string)
    ensures k in MapOf(es) <==> k in Names(es, Key)
    ensures k in MapOf(es) ==> Entry(k, MapOf(es)[k]) in es
  {
    if es != [] {
      var init, e := es[..|es| - 1], es[|es| - 1];
      MapOfIs(init, k);
      assert es == init + [e];
      NamesConcat(init, [e], Key);
      NamesOne(e, Key);
      assert e == Entry(e.key, e.value);
    }
  }

  lemma {:induction false} MapOfConcat<V>(es: seq<Entry<V>>, fs: seq<Entry<V>>)
    ensures MapOf(es + fs) == MapOf(es) + MapOf(fs)
  {
    if fs == [] {
      assert es + fs == es;
    } else {
      assert (es + fs)[..|es + fs| - 1] == es + fs[..|fs| - 1];
      MapOfConcat(es, fs[..|fs| - 1]);
    }
  }

  /** With distinct keys the dict is exactly the set of entries, whatever their order. */
  lemma MapOfDistinct<V>(es: seq<Entry<V>>, e: Entry<V>)
    requires DistinctNames(es, Key) && e in es
    ensures e.key in MapOf(es) && MapOf(es)[e.key] == e.value
  {
    MapOfIs(es, e.key);
    assert e.key == Key(e);
    DistinctMeans(es, Key, e, Entry(e.key, MapOf(es)[e.key]));
  }

  /********** Definitions **********/

  /** The topology configuration: entries without a value are skipped, the URLs always have one. */
  function Config(m: Model): map<string, string> {
    (map k | k in m.ports && m.ports[k].Some? :: m.ports[k].value)
    + map["REDIS_URL" := if m.redis.enabled then "redis://" + m.redis.host else m.redis.url,
          "DOCKER_PROXY_URL" := "tcp://" + m.proxy.host + ":2375/"]
  }

  function Infrastructure(m: Model): set<string> {
    (if m.proxy.enabled then {m.proxy.host} else {}) + (if m.redis.enabled then {m.redis.host} else {})
  }

  function Gateways(nets: seq<Network>): set<string> { set net | net in nets :: GatewayName(net.name) }

  function ProxyDefinition(nets: seq<Network>): Definition { PROXY.(networks := Names(nets, NetName)) }

  function RedisDefinition(nets: seq<Network>): Definition {
    REDIS.(networks := Names(nets, NetName), ports := ["6379"])
  }

  function GatewayDefinition(m: Model, net: Network): Definition {
    GATEWAY.(image := BASE_IMAGE, command := ["gateway"] + net.netem, environment := ENVIRONMENT_BASE + Config(m),
             networks := {net.name}, dependsOn := Infrastructure(m))
  }

  function BrokerDefinition(m: Model, b: Broker): Definition {
    BROKER.(image := BASE_IMAGE, command := ["broker"], environment := ENVIRONMENT_BASE + Config(m),
            networks := Names(b.networks, NetName), dependsOn := Gateways(b.networks) + Infrastructure(m))
  }

  function ServiceNetworkNames(m: Model, s: Service): set<string> {
    set n | n in ServiceNodes(m, s) :: ServiceNetworkName(s.name, n.name)
  }

  function ServiceDefinition(m: Model, s: Service): Definition {
    GENERIC.(image := s.image, environment := ENVIRONMENT_BASE + s.params.env, labels := GENERIC.labels + s.params.labels,
             networks := ServiceNetworkNames(m, s),
             deploy := NO_DEPLOY.(condition := s.params.condition, mode := s.params.mode))
  }

  function LinkedNetworks(n: Node): set<string> { set s | s in n.services :: ServiceNetworkName(s.name, n.name) }

  function BrokerEnvironment(n: Node): map<string, string> {
    match BrokerNetwork(n)
    case None => map[]
    case Some(net) => map["MQTT_BROKER_HOST" := n.broker.value.name + "." + net.name]
  }

  function SpeedEnvironment(n: Node): map<string, string> {
    if n.resources.None? then map[] else Present("TARGET_CPU_SPEED", n.resources.value.speed)
  }

  function Present(key: string, value: Option<string>): map<string, string> {
    match value
    case None => map[]
    case Some(v) => map[key := v]
  }

  /** `get_node_resources_definition`: none when nothing is constrained. */
  function ResourcesDefinition(r: NodeResources): Option<Resources> {
    var limits := Present("cpus", r.cpuLimit) + Present("memory", r.memLimit);
    var reservations := Present("cpus", r.cpuReservation) + Present("memory", r.memReservation);
    if limits == map[] && reservations == map[] then None else Some(Resources(limits, reservations))
  }

  function NodeDeploy(n: Node): Deploy {
    NO_DEPLOY.(replicas := n.scale, resources := if n.resources.None? then None else ResourcesDefinition(n.resources.value))
  }

  function NodeDefinition(m: Model, n: Node): Definition {
    NODE.(image := n.image, command := n.command,
          environment := ENVIRONMENT_BASE + BrokerEnvironment(n) + SpeedEnvironment(n) + Config(m),
          networks := Names(n.networks + Attached(n), NetName) + LinkedNetworks(n),
          dependsOn := Gateways(n.networks + Attached(n)) + Infrastructure(m),
          deploy := NodeDeploy(n))
  }

  /********** The whole definition **********/

  function HostEntries(m: Model, nets: seq<Network>): seq<Entry<Definition>> {
    (if m.proxy.enabled then [Entry(m.proxy.host, ProxyDefinition(nets))] else [])
    + (if m.redis.enabled then [Entry(m.redis.host, RedisDefinition(nets))] else [])
  }

  function GatewayEntry(m: Model): Network -> Entry<Definition> {
    (net: Network) => Entry(GatewayName(net.name), GatewayDefinition(m, net))
  }

  function ServiceEntry(m: Model): Service -> Entry<Definition> {
    (s: Service) => Entry(s.name, ServiceDefinition(m, s))
  }

  function NodeEntry(m: Model): Node -> Entry<Definition> {
    (n: Node) => Entry(n.name, NodeDefinition(m, n))
  }

  function BrokerEntry(m: Model): Broker -> Entry<Definition> {
    (b: Broker) => Entry(b.name, BrokerDefinition(m, b))
  }

  /** The service entries in the order in which they are written. */
  function Services(m: Model, brokers: seq<Broker>, nets: seq<Network>, srvs: seq<Service>): seq<Entry<Definition>> {
    HostEntries(m, nets) + Each(nets, GatewayEntry(m)) + Each(srvs, ServiceEntry(m))
    + Each(m.nodes, NodeEntry(m)) + Each(brokers, BrokerEntry(m))
  }

  function NetworkEntry(net: Network): Entry<NetworkDefinition> {
    Entry(net.name, NETWORK.(name := net.name))
  }

  function ServiceNetworkEntry(s: Service): Node -> Entry<NetworkDefinition> {
    (n: Node) => var name := ServiceNetworkName(s.name, n.name); Entry(name, SERVICE_NETWORK.(name := name))
  }

  /** `_service_networks`. */
  function ServiceNetworks(m: Model): Service -> seq<Entry<NetworkDefinition>> {
    (s: Service) => Each(ServiceNodes(m, s), ServiceNetworkEntry(s))
  }

  function Networks(m: Model, nets: seq<Network>, srvs: seq<Service>): seq<Entry<NetworkDefinition>> {
    Each(nets, NetworkEntry) + FlatMap(srvs, ServiceNetworks(m))
  }

  /** The definition for some choice of the broker, network and service sets. */
  function CompileFrom(m: Model, brokers: seq<Broker>, nets: seq<Network>, srvs: seq<Service>): Compose {
    Compose(MapOf(Services(m, brokers, nets, srvs)), MapOf(Networks(m, nets, srvs)))
  }

  /** The definition of a topology. */
  function Compile(m: Model): Compose {
    CompileFrom(m, BrokersOf(m), NetworksOf(m), ServicesOf(m))
  }

  function ServiceEntries(m: Model): seq<Entry<Definition>> {
    Services(m, BrokersOf(m), NetworksOf(m), ServicesOf(m))
  }

  /** Every service entry comes from the hosts, a gateway, a service, a node or a broker. */
  lemma ServicesAre(m: Model, brokers: seq<Broker>, nets: seq<Network>, srvs: seq<Service>, e: Entry<Definition>)
    ensures e in Services(m, brokers, nets, srvs) <==>
            || e in HostEntries(m, nets)
            || (exists net :: net in nets && e == GatewayEntry(m)(net))
            || (exists s :: s in srvs && e == ServiceEntry(m)(s))
            || (exists n :: n in m.nodes && e == NodeEntry(m)(n))
            || (exists b :: b in brokers && e == BrokerEntry(m)(b))
  {
    EachMember(nets, GatewayEntry(m), e);
    EachMember(srvs, ServiceEntry(m), e);
    EachMember(m.nodes, NodeEntry(m), e);
    EachMember(brokers, BrokerEntry(m), e);
  }

  lemma NetworksAre(m: Model, nets: seq<Network>, srvs: seq<Service>, e: Entry<NetworkDefinition>)
    ensures e in Networks(m, nets, srvs) <==>
            || (exists net :: net in nets && e == NetworkEntry(net))
            || (exists s, n :: s in srvs && n in ServiceNodes(m, s) && e == ServiceNetworkEntry(s)(n))
  {
    EachMember(nets, NetworkEntry, e);
    FlatMapMember(srvs, ServiceNetworks(m), e);
    forall s: Service ensures e in ServiceNetworks(m)(s) <==> exists n :: n in ServiceNodes(m, s) && e == ServiceNetworkEntry(s)(n) {
      EachMember(ServiceNodes(m, s), ServiceNetworkEntry(s), e);
    }
  }

  /** The defined networks: those of the topology, and one for each service and node that holds it. */
  lemma NetworkKeys(m: Model, nets: seq<Network>, srvs: seq<Service>, k: string)
    ensures k in MapOf(Networks(m, nets, srvs)) <==>
            k in Names(nets, NetName) || exists s :: s in srvs && k in ServiceNetworkNames(m, s)
  {
    hide MapOf, Networks, ServiceNodes;
    var es := Networks(m, nets, srvs);
    MapOfIs(es, k);
    if net :| net in nets && net.name == k {
      NetworksAre(m, nets, srvs, NetworkEntry(net));
      assert Key(NetworkEntry(net)) == k;
    }
    if s, n :| s in srvs && n in ServiceNodes(m, s) && k == ServiceNetworkName(s.name, n.name) {
      NetworksAre(m, nets, srvs, ServiceNetworkEntry(s)(n));
      assert Key(ServiceNetworkEntry(s)(n)) == k;
    }
    if e :| e in es && Key(e) == k {
      NetworksAre(m, nets, srvs, e);
    }
  }
}
