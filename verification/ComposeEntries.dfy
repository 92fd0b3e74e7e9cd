/** The entries of a compiled topology written out (wotemu/topology/compose.py): what each compiled service and
    network holds, in terms of the topology alone. */
module ComposeEntries {
  import opened Collections
  import opened Topologies
  import opened ComposeSpec
  import opened ComposeTheorems

  /********** Which entry stands **********/

  lemma GatewayStands(m: Model, net: Network)
    requires net in NetworksOf(m) && IsGateway(m, GatewayName(net.name))
    ensures GatewayName(net.name) in Compile(m).services
    ensures Compile(m).services[GatewayName(net.name)] == GatewayDefinition(m, net)
  {
    hide Services, HostEntries, BrokersOf, ServicesOf, NetworksOf, GatewayDefinition, MapOf, GatewayName;
    var k, gates := GatewayName(net.name), Each(NetworksOf(m), GatewayEntry(m));
    ServicesSplit(m, BrokersOf(m), NetworksOf(m), ServicesOf(m));
    GroupKeys(m, k);
    GatewaysDistinct(m);
    EachMember(NetworksOf(m), GatewayEntry(m), GatewayEntry(m)(net));
    MapOfDistinct(gates, GatewayEntry(m)(net));
  }

  lemma GatewaysDistinct(m: Model)
    ensures DistinctNames(Each(NetworksOf(m), GatewayEntry(m)), Key)
  {
    hide GatewayDefinition;
    FirstByNameCollects(NetworksUsed(m, BrokersOf(m)), NetName);
    hide FirstByName;
    var nets := NetworksOf(m);
    forall i, j | 0 <= i < j < |nets| ensures GatewayName(nets[i].name) != GatewayName(nets[j].name) {
      GatewaysDiffer(nets[i].name, nets[j].name);
    }
  }

  lemma ServiceStands(m: Model, s: Service)
    requires s in ServicesOf(m) && !OnTop(m, s.name)
    ensures s.name in Compile(m).services && Compile(m).services[s.name] == ServiceDefinition(m, s)
  {
    hide Services, HostEntries, BrokersOf, NetworksOf, ServiceDefinition, MapOf, FirstByName;
    var srvs := Each(ServicesOf(m), ServiceEntry(m));
    FirstByNameCollects(AllServices(m), ServiceName);
    assert DistinctNames(ServicesOf(m), ServiceName);
    hide ServicesOf;
    ServicesSplit(m, BrokersOf(m), NetworksOf(m), ServicesOf(m));
    GroupKeys(m, s.name);
    assert ServiceName(s) in Names(ServicesOf(m), ServiceName);
    KeysDistinct(ServicesOf(m), ServiceName, ServiceEntry(m));
    EachMember(ServicesOf(m), ServiceEntry(m), ServiceEntry(m)(s));
    MapOfDistinct(srvs, ServiceEntry(m)(s));
  }

  /** A host that nothing overwrites. */
  predicate Untaken(m: Model, k: string) {
    !OnTop(m, k) && k !in Names(ServicesOf(m), ServiceName) && k !in Gateways(NetworksOf(m))
  }

  /** The hosts as a dict; Redis comes second. */
  lemma HostMap(m: Model, nets: seq<Network>)
    ensures var proxy := if m.proxy.enabled then map[m.proxy.host := ProxyDefinition(nets)] else map[];
            var redis := if m.redis.enabled then map[m.redis.host := RedisDefinition(nets)] else map[];
            MapOf(HostEntries(m, nets)) == proxy + redis
  {
    hide ProxyDefinition, RedisDefinition;
    var proxy, redis := Entry(m.proxy.host, ProxyDefinition(nets)), Entry(m.redis.host, RedisDefinition(nets));
    var first := if m.proxy.enabled then [proxy] else [];
    var second := if m.redis.enabled then [redis] else [];
    assert HostEntries(m, nets) == first + second;
    MapOfConcat(first, second);
    MapOfOne(proxy);
    MapOfOne(redis);
    hide MapOf;
  }

  lemma UntakenStands(m: Model, k: string)
    requires Untaken(m, k) && k in MapOf(HostEntries(m, NetworksOf(m)))
    ensures k in Compile(m).services && Compile(m).services[k] == MapOf(HostEntries(m, NetworksOf(m)))[k]
  {
    hide Services, BrokersOf, NetworksOf, ServicesOf, MapOf, HostEntries, Each, Infrastructure, NodeEntry, BrokerEntry, GatewayEntry,
         ServiceEntry;
    ServicesSplit(m, BrokersOf(m), NetworksOf(m), ServicesOf(m));
    GroupKeys(m, k);
  }

  lemma HostStands(m: Model)
    ensures m.proxy.enabled && Untaken(m, m.proxy.host) && !(m.redis.enabled && m.redis.host == m.proxy.host) ==>
              m.proxy.host in Compile(m).services && Compile(m).services[m.proxy.host] == ProxyDefinition(NetworksOf(m))
    ensures m.redis.enabled && Untaken(m, m.redis.host) ==>
              m.redis.host in Compile(m).services && Compile(m).services[m.redis.host] == RedisDefinition(NetworksOf(m))
  {
    hide Compile, NetworksOf, ProxyDefinition, RedisDefinition, MapOf, HostEntries, Untaken;
    HostMap(m, NetworksOf(m));
    if m.proxy.enabled && Untaken(m, m.proxy.host) {
      UntakenStands(m, m.proxy.host);
    }
    if m.redis.enabled && Untaken(m, m.redis.host) {
      UntakenStands(m, m.redis.host);
    }
  }

  lemma MapOfOne<V>(e: Entry<V>)
    ensures MapOf([e]) == map[e.key := e.value] && MapOf<V>([]) == map[]
  {
    assert [e][..0] == [];
  }

  /********** Configuration **********/

  const REDIS_KEY := "REDIS_URL"
  const PROXY_KEY := "DOCKER_PROXY_URL"

  lemma KeysDiffer()
    ensures REDIS_KEY != PROXY_KEY && "MQTT_BROKER_HOST" != REDIS_KEY && "MQTT_BROKER_HOST" != PROXY_KEY
    ensures "TARGET_CPU_SPEED" != REDIS_KEY && "TARGET_CPU_SPEED" != PROXY_KEY && "TARGET_CPU_SPEED" != "MQTT_BROKER_HOST"
  {
    assert |REDIS_KEY| == 9 && |PROXY_KEY| == 16 && PROXY_KEY[0] == 'D';
    assert |"MQTT_BROKER_HOST"| == 16 && "MQTT_BROKER_HOST"[0] == 'M';
    assert |"TARGET_CPU_SPEED"| == 16 && "TARGET_CPU_SPEED"[0] == 'T';
  }

  /** The variable has this value. */
  predicate Has(env: map<string, string>, key: string, value: string) { key in env && env[key] == value }

  /** The environment carries the topology configuration: the URL of Redis, its own or the given one; the URL of the
      Docker proxy; and every other port that has a value. */
  predicate Configured(m: Model, env: map<string, string>) {
    && Has(env, "REDIS_URL", if m.redis.enabled then "redis://" + m.redis.host else m.redis.url)
    && Has(env, "DOCKER_PROXY_URL", "tcp://" + m.proxy.host + ":2375/")
    && forall v | v in m.ports && m.ports[v].Some? && v != "REDIS_URL" && v != "DOCKER_PROXY_URL" :: Has(env, v, m.ports[v].value)
  }

  /** The configuration says nothing of a variable. */
  predicate Unconfigured(m: Model, key: string) {
    key != "REDIS_URL" && key != "DOCKER_PROXY_URL" && (key in m.ports ==> m.ports[key].None?)
  }

  lemma ConfigIs(m: Model, base: map<string, string>)
    ensures Configured(m, base + Config(m))
    ensures forall v | Unconfigured(m, v) :: v !in Config(m)
  {
    KeysDiffer();
  }

  /** Every compiled node and broker, and every gateway that is not overwritten, carries the topology configuration,
      over anything it sets itself. */
  lemma CompiledConfiguration(m: Model, k: string)
    requires Constructed(m) && (OnTop(m, k) || IsGateway(m, k))
    ensures k in Compile(m).services && Configured(m, Compile(m).services[k].environment)
  {
    hide Configured, Config, BrokersOf, NetworksOf, Compile, BrokerEnvironment, SpeedEnvironment, GatewayName;
    if k in BrokerNames(m) {
      var b :| b in BrokersOf(m) && b.name == k;
      LastEntriesWin(m, BrokerEntry(m)(b));
      ConfigIs(m, ENVIRONMENT_BASE);
    } else if k in NodeNames(m) {
      var n :| n in m.nodes && n.name == k;
      LastEntriesWin(m, NodeEntry(m)(n));
      ConfigIs(m, ENVIRONMENT_BASE + BrokerEnvironment(n) + SpeedEnvironment(n));
    } else {
      var net :| net in NetworksOf(m) && GatewayName(net.name) == k;
      GatewayStands(m, net);
      ConfigIs(m, ENVIRONMENT_BASE);
    }
  }

  /********** Nodes **********/

  /** The network a node reaches its broker through: the given one, or the first of the broker. */
  function Chosen(n: Node): Network
    requires n.broker.Some? && (n.brokerNetwork.Some? || n.broker.value.networks != [])
  {
    if n.brokerNetwork.Some? then n.brokerNetwork.value else n.broker.value.networks[0]
  }

  lemma ChosenIs(n: Node)
    requires n.broker.Some? && !BrokerFails(n)
    ensures n.brokerNetwork.Some? || n.broker.value.networks != []
    ensures BrokerNetwork(n) == Some(Chosen(n))
  {
  }

  /** The networks of a compiled node: its own, a private one for each service it holds, and that of its broker. */
  lemma CompiledNodeNetworks(m: Model, n: Node, k: string)
    requires Constructed(m) && n in m.nodes && !Shadowed(m, n) && !BrokerFails(n)
    ensures n.name in Compile(m).services && (n.broker.Some? ==> n.brokerNetwork.Some? || n.broker.value.networks != [])
    ensures k in Compile(m).services[n.name].networks <==>
              || (exists net :: net in n.networks && k == net.name)
              || (exists s :: s in n.services && k == "srvnet_" + s.name + "_" + n.name)
              || (n.broker.Some? && k == Chosen(n).name)
  {
    hide Compile, BrokersOf, BrokerFails, BrokerNetwork, Config, BrokerEnvironment, SpeedEnvironment, Names,
         Infrastructure, Gateways, Attached, LinkedNetworks;
    NodeStands(m, n);
    NodeNets(n);
    NamesWritten(n.networks + Attached(n), k);
    LinkedWritten(n, k);
  }

  lemma NamesWritten(nets: seq<Network>, k: string)
    ensures k in Names(nets, NetName) <==> exists net :: net in nets && k == net.name
  {
  }

  lemma LinkedWritten(n: Node, k: string)
    ensures k in LinkedNetworks(n) <==> exists s :: s in n.services && k == "srvnet_" + s.name + "_" + n.name
  {
    hide ServiceNetworkName;
    forall s: Service { PrivateName(s.name, n.name); }
    if k in LinkedNetworks(n) {
      var s :| s in n.services && k == ServiceNetworkName(s.name, n.name);
      assert s in n.services && k == "srvnet_" + s.name + "_" + n.name;
    }
    if s :| s in n.services && k == "srvnet_" + s.name + "_" + n.name {
      assert k == ServiceNetworkName(s.name, n.name);
    }
  }

  /** The dependencies of a compiled node: the gateways of its networks and of that of its broker, and the enabled
      hosts. */
  lemma CompiledNodeDependencies(m: Model, n: Node, k: string)
    requires Constructed(m) && n in m.nodes && !Shadowed(m, n) && !BrokerFails(n)
    ensures n.name in Compile(m).services && (n.broker.Some? ==> n.brokerNetwork.Some? || n.broker.value.networks != [])
    ensures k in Compile(m).services[n.name].dependsOn <==>
              || (exists net :: net in n.networks && k == "gw_" + net.name)
              || (n.broker.Some? && k == "gw_" + Chosen(n).name)
              || (m.proxy.enabled && k == m.proxy.host)
              || (m.redis.enabled && k == m.redis.host)
  {
    hide Compile, BrokersOf, BrokerFails, BrokerNetwork, Config, BrokerEnvironment, SpeedEnvironment, LinkedNetworks, Names, Attached;
    NodeStands(m, n);
    NodeNets(n);
  }

  /** What a node is attached to. */
  lemma NodeNets(n: Node)
    requires !BrokerFails(n)
    ensures n.broker.Some? ==> n.brokerNetwork.Some? || n.broker.value.networks != []
    ensures forall net :: net in n.networks + Attached(n) <==> net in n.networks || (n.broker.Some? && net == Chosen(n))
  {
    hide BrokerFails, BrokerNetwork;
    NoBroker(n);
    if n.broker.Some? {
      ChosenIs(n);
    }
  }

  lemma NoBroker(n: Node)
    ensures n.broker.None? ==> BrokerNetwork(n) == None
  {
  }

  /** A compiled node finds its broker at the broker's name on that network, and is given its target speed, unless the
      configuration has such variables. */
  lemma CompiledNodeEnvironment(m: Model, n: Node)
    requires Constructed(m) && n in m.nodes && !Shadowed(m, n) && !BrokerFails(n)
    ensures n.name in Compile(m).services && (n.broker.Some? ==> n.brokerNetwork.Some? || n.broker.value.networks != [])
    ensures n.broker.Some? && Unconfigured(m, "MQTT_BROKER_HOST") ==>
              Has(Compile(m).services[n.name].environment, "MQTT_BROKER_HOST", n.broker.value.name + "." + Chosen(n).name)
    ensures n.resources.Some? && n.resources.value.speed.Some? && Unconfigured(m, "TARGET_CPU_SPEED") ==>
              Has(Compile(m).services[n.name].environment, "TARGET_CPU_SPEED", n.resources.value.speed.value)
  {
    hide Compile, BrokersOf, BrokerFails, BrokerNetwork, Config, BrokerEnvironment, SpeedEnvironment, Unconfigured;
    NodeStands(m, n);
    if n.broker.Some? {
      ChosenIs(n);
    }
    NodeVariables(m, n, ENVIRONMENT_BASE);
  }

  lemma NodeVariables(m: Model, n: Node, base: map<string, string>)
    ensures var env := base + BrokerEnvironment(n) + SpeedEnvironment(n) + Config(m);
            && (BrokerNetwork(n).Some? && Unconfigured(m, "MQTT_BROKER_HOST") ==>
                  Has(env, "MQTT_BROKER_HOST", n.broker.value.name + "." + BrokerNetwork(n).value.name))
            && (n.resources.Some? && n.resources.value.speed.Some? && Unconfigured(m, "TARGET_CPU_SPEED") ==>
                  Has(env, "TARGET_CPU_SPEED", n.resources.value.speed.value))
  {
    hide BrokerNetwork, Config, Unconfigured, Configured;
    KeysDiffer();
    ConfigIs(m, base);
  }

  /** Everything else a compiled node has. */
  lemma CompiledNodeRest(m: Model, n: Node)
    requires Constructed(m) && n in m.nodes && !Shadowed(m, n)
    ensures n.name in Compile(m).services
    ensures var d := Compile(m).services[n.name];
            && d.image == n.image && d.command == n.command && d.hostname == "{{.Task.Name}}"
            && d.labels == map["org.fundacionctic.wotemu.node" := ""] && d.ports == [] && d.capAdd == ["ALL"]
            && d.volumes == ["/var/run/docker.sock:/var/run/docker.sock"]
            && d.deploy.replicas == n.scale && d.deploy.constraints == [] && d.deploy.condition.None? && d.deploy.mode.None?
            && (n.resources.None? ==> d.deploy.resources.None?)
            && (n.resources.Some? ==> Limits(n.resources.value, d.deploy.resources))
  {
    hide Compile, BrokersOf, BrokerNetwork, Config, ResourcesDefinition, Limits;
    NodeStands(m, n);
    if n.resources.Some? {
      ResourcesAre(n.resources.value);
    }
  }

  /** The entry is there exactly when the value is. */
  predicate Given(entries: map<string, string>, key: string, value: Option<string>) {
    if value.None? then key !in entries else Has(entries, key, value.value)
  }

  /** Limits and reservations of processors and memory: nothing at all when none is set, and otherwise one entry for each
      that is set. */
  predicate Limits(r: NodeResources, d: Option<Resources>) {
    if r.cpuLimit.None? && r.memLimit.None? && r.cpuReservation.None? && r.memReservation.None? then d.None?
    else
      && d.Some? && d.value.limits.Keys <= {"cpus", "memory"} && d.value.reservations.Keys <= {"cpus", "memory"}
      && Given(d.value.limits, "cpus", r.cpuLimit) && Given(d.value.limits, "memory", r.memLimit)
      && Given(d.value.reservations, "cpus", r.cpuReservation) && Given(d.value.reservations, "memory", r.memReservation)
  }

  lemma ResourcesAre(r: NodeResources)
    ensures Limits(r, ResourcesDefinition(r))
  {
    assert |"cpus"| == 4 && |"memory"| == 6;
    var limits := Present("cpus", r.cpuLimit) + Present("memory", r.memLimit);
    var reservations := Present("cpus", r.cpuReservation) + Present("memory", r.memReservation);
    assert r.cpuLimit.Some? ==> "cpus" in limits;
    assert r.memLimit.Some? ==> "memory" in limits;
    assert r.cpuReservation.Some? ==> "cpus" in reservations;
    assert r.memReservation.Some? ==> "memory" in reservations;
  }

  /********** Gateways, brokers, services and hosts **********/

  /** The task variables that every gateway, broker, node and service has. */
  predicate TaskVariables(env: map<string, string>) {
    && Has(env, "NODE_HOSTNAME", "{{.Node.Hostname}}") && Has(env, "NODE_ID", "{{.Node.ID}}")
    && Has(env, "SERVICE_NAME", "{{.Service.Name}}") && Has(env, "SERVICE_ID", "{{.Service.ID}}")
  }

  /** A compiled gateway. */
  lemma CompiledGateway(m: Model, net: Network)
    requires net in NetworksOf(m) && IsGateway(m, "gw_" + net.name)
    ensures "gw_" + net.name in Compile(m).services
    ensures var d := Compile(m).services["gw_" + net.name];
            && d.image == "agmangas/wotemu" && d.command == ["gateway"] + net.netem && d.hostname == "{{.Task.Name}}"
            && d.labels == map["org.fundacionctic.wotemu.gw" := ""] && d.ports == [] && d.capAdd == ["ALL"]
            && d.volumes == ["/var/run/docker.sock:/var/run/docker.sock"] && d.deploy == Deploy([], None, None, 0, None)
            && d.networks == {net.name}
            && (forall k :: k in d.dependsOn <==> (m.proxy.enabled && k == m.proxy.host) || (m.redis.enabled && k == m.redis.host))
  {
    hide Compile, NetworksOf, Config;
    GatewayStands(m, net);
  }

  /** A compiled broker. */
  lemma CompiledBroker(m: Model, b: Broker)
    requires Constructed(m) && b in BrokersOf(m)
    ensures b.name in Compile(m).services
    ensures var d := Compile(m).services[b.name];
            && d.image == "agmangas/wotemu" && d.command == ["broker"] && d.hostname == "{{.Task.Name}}"
            && d.labels == map["org.fundacionctic.wotemu.broker" := ""] && d.ports == [] && d.capAdd == ["ALL"]
            && d.volumes == ["/var/run/docker.sock:/var/run/docker.sock"] && d.deploy == Deploy([], None, None, 0, None)
            && (forall k :: k in d.networks <==> exists net :: net in b.networks && k == net.name)
            && (forall k :: k in d.dependsOn <==>
                  || (exists net :: net in b.networks && k == "gw_" + net.name)
                  || (m.proxy.enabled && k == m.proxy.host) || (m.redis.enabled && k == m.redis.host))
  {
    hide Compile, BrokersOf, Config;
    LastEntriesWin(m, BrokerEntry(m)(b));
  }

  lemma ServiceNetworksWritten(m: Model, s: Service, k: string)
    requires Constructed(m)
    ensures k in ServiceNetworkNames(m, s) <==> exists n :: n in m.nodes && s in n.services && k == "srvnet_" + s.name + "_" + n.name
  {
    hide ServiceNodes, ServiceNetworkName;
    ServiceNodesAre(m, s);
    forall n: Node { PrivateName(s.name, n.name); }
    if k in ServiceNetworkNames(m, s) {
      var n :| n in ServiceNodes(m, s) && k == ServiceNetworkName(s.name, n.name);
      assert n in m.nodes && s in n.services && k == "srvnet_" + s.name + "_" + n.name;
    }
    if n :| n in m.nodes && s in n.services && k == "srvnet_" + s.name + "_" + n.name {
      assert n in ServiceNodes(m, s) && k == ServiceNetworkName(s.name, n.name);
    }
  }

  lemma PrivateName(srv: string, node: string)
    ensures ServiceNetworkName(srv, node) == "srvnet_" + srv + "_" + node
  {
  }

  /** A compiled service: its own variables and labels over the base ones, and one network per node that holds it. */
  lemma CompiledService(m: Model, s: Service)
    requires Constructed(m) && s in ServicesOf(m) && !OnTop(m, s.name)
    ensures s.name in Compile(m).services
    ensures var d := Compile(m).services[s.name];
            && d.image == s.image && d.command == [] && d.hostname == "{{.Task.Name}}"
            && (forall v | v in s.params.env :: Has(d.environment, v, s.params.env[v]))
            && (forall v | v in s.params.labels :: Has(d.labels, v, s.params.labels[v]))
            && ("org.fundacionctic.wotemu.service" !in s.params.labels ==> Has(d.labels, "org.fundacionctic.wotemu.service", ""))
            && d.labels.Keys == {"org.fundacionctic.wotemu.service"} + s.params.labels.Keys
            && d.deploy == Deploy([], s.params.condition, s.params.mode, 0, None)
            && d.dependsOn == {} && d.ports == [] && d.capAdd == [] && d.volumes == []
            && (forall k :: k in d.networks <==> exists n :: n in m.nodes && s in n.services && k == "srvnet_" + s.name + "_" + n.name)
  {
    hide Compile, ServicesOf, ServiceNodes;
    ServiceStands(m, s);
    forall k { ServiceNetworksWritten(m, s, k); }
    var own := map["org.fundacionctic.wotemu.service" := ""];
    assert GENERIC.labels == own && own.Keys == {"org.fundacionctic.wotemu.service"};
    assert (own + s.params.labels).Keys == own.Keys + s.params.labels.Keys;
  }

  const TASK_KEYS := {"NODE_HOSTNAME", "NODE_ID", "SERVICE_NAME", "SERVICE_ID"}

  lemma BaseVariables()
    ensures TaskVariables(ENVIRONMENT_BASE)
  {
    assert |"NODE_HOSTNAME"| == 13 && |"NODE_ID"| == 7 && |"SERVICE_NAME"| == 12 && |"SERVICE_ID"| == 10;
  }

  lemma VariablesKept(env: map<string, string>, more: map<string, string>)
    requires TaskVariables(env) && forall v | v in TASK_KEYS :: v !in more
    ensures TaskVariables(env + more)
  {
  }

  lemma OwnVariables(n: Node)
    ensures forall v | v in TASK_KEYS :: v !in BrokerEnvironment(n) && v !in SpeedEnvironment(n)
  {
    hide BrokerNetwork;
    assert |"MQTT_BROKER_HOST"| == |"TARGET_CPU_SPEED"| == 16;
    assert forall v | v in TASK_KEYS :: |v| < 16;
  }

  /** The task variables reach every compiled node and broker and every gateway that is not overwritten, unless the
      configuration has such variables. */
  lemma CompiledTaskVariables(m: Model, k: string)
    requires Constructed(m) && (OnTop(m, k) || IsGateway(m, k)) && forall v | v in TASK_KEYS :: Unconfigured(m, v)
    ensures k in Compile(m).services && TaskVariables(Compile(m).services[k].environment)
  {
    hide TaskVariables, Config, BrokersOf, NetworksOf, Compile, BrokerEnvironment, SpeedEnvironment, GatewayName, Unconfigured, Configured;
    BaseVariables();
    ConfigIs(m, map[]);
    VariablesKept(ENVIRONMENT_BASE, Config(m));
    if k in BrokerNames(m) {
      var b :| b in BrokersOf(m) && b.name == k;
      LastEntriesWin(m, BrokerEntry(m)(b));
    } else if k in NodeNames(m) {
      var n :| n in m.nodes && n.name == k;
      LastEntriesWin(m, NodeEntry(m)(n));
      OwnVariables(n);
      VariablesKept(ENVIRONMENT_BASE, BrokerEnvironment(n));
      VariablesKept(ENVIRONMENT_BASE + BrokerEnvironment(n), SpeedEnvironment(n));
      VariablesKept(ENVIRONMENT_BASE + BrokerEnvironment(n) + SpeedEnvironment(n), Config(m));
    } else {
      var net :| net in NetworksOf(m) && GatewayName(net.name) == k;
      GatewayStands(m, net);
    }
  }

  /** They reach a compiled service unless it has its own. */
  lemma ServiceTaskVariables(m: Model, s: Service)
    requires s in ServicesOf(m) && !OnTop(m, s.name) && forall v | v in TASK_KEYS :: v !in s.params.env
    ensures s.name in Compile(m).services && TaskVariables(Compile(m).services[s.name].environment)
  {
    hide TaskVariables, Compile, ServicesOf, ServiceNetworkNames;
    BaseVariables();
    VariablesKept(ENVIRONMENT_BASE, s.params.env);
    ServiceStands(m, s);
  }

  /** The hosts, when enabled and not overwritten, are on every network of the topology. */
  lemma CompiledHosts(m: Model)
    ensures m.proxy.enabled && Untaken(m, m.proxy.host) && !(m.redis.enabled && m.redis.host == m.proxy.host) ==>
              && m.proxy.host in Compile(m).services
              && var d := Compile(m).services[m.proxy.host];
                 && d.image == "tecnativa/docker-socket-proxy" && d.networks == NetworkNames(m) && d.dependsOn == {}
                 && d.command == [] && d.hostname == "" && d.labels == map[] && d.ports == [] && d.capAdd == ["ALL"]
                 && d.volumes == ["/var/run/docker.sock:/var/run/docker.sock"]
                 && d.deploy == Deploy(["node.role == manager"], None, None, 0, None)
                 && d.environment == map["CONTAINERS" := "1", "NETWORKS" := "1", "TASKS" := "1", "SERVICES" := "1", "NODES" := "1"]
    ensures m.redis.enabled && Untaken(m, m.redis.host) ==>
              && m.redis.host in Compile(m).services
              && var d := Compile(m).services[m.redis.host];
                 && d.image == "redis:5" && d.networks == NetworkNames(m) && d.dependsOn == {}
                 && d.command == [] && d.hostname == "" && d.labels == map["org.fundacionctic.wotemu.redis" := ""]
                 && d.ports == ["6379"] && d.capAdd == [] && d.volumes == [] && d.environment == map[]
                 && d.deploy == Deploy([], None, None, 0, None)
  {
    hide Compile, Untaken, NetworksOf;
    HostStands(m);
  }

  /********** Networks **********/

  /** Every defined network is an attachable overlay under its own name; a private one is labelled as such, and a
      topology network as one unless a private network has its name. */
  lemma CompiledNetworks(m: Model, k: string)
    requires k in Compile(m).networks
    ensures var d := Compile(m).networks[k];
            && d.name == k && d.driver == "overlay" && d.attachable
            && d.labels == if k in PrivateNetworks(m) then map["org.fundacionctic.wotemu.servicenet" := ""]
                           else map["org.fundacionctic.wotemu.net" := ""]
  {
    hide NetworksOf, ServicesOf, ServiceNodes, MapOf, ServiceNetworkName;
    var plain, own := Each(NetworksOf(m), NetworkEntry), FlatMap(ServicesOf(m), ServiceNetworks(m));
    MapOfConcat(plain, own);
    MapOfIs(plain, k);
    MapOfIs(own, k);
    OwnNetworks(m, k);
    if k in MapOf(own) {
      OwnNetwork(m, Entry(k, MapOf(own)[k]));
    } else {
      EachMember(NetworksOf(m), NetworkEntry, Entry(k, MapOf(plain)[k]));
    }
  }

  lemma OwnNetwork(m: Model, e: Entry<NetworkDefinition>)
    requires e in FlatMap(ServicesOf(m), ServiceNetworks(m))
    ensures e.value == SERVICE_NETWORK.(name := e.key) && e.key in PrivateNetworks(m)
  {
    hide ServicesOf, ServiceNodes, ServiceNetworkName;
    FlatMapMember(ServicesOf(m), ServiceNetworks(m), e);
    var s :| s in ServicesOf(m) && e in ServiceNetworks(m)(s);
    EachMember(ServiceNodes(m, s), ServiceNetworkEntry(s), e);
  }

  lemma OwnNetworks(m: Model, k: string)
    ensures k in MapOf(FlatMap(ServicesOf(m), ServiceNetworks(m))) <==> k in PrivateNetworks(m)
  {
    hide ServicesOf, ServiceNodes, ServiceNetworkName;
    var own := FlatMap(ServicesOf(m), ServiceNetworks(m));
    MapOfIs(own, k);
    if k in MapOf(own) {
      OwnNetwork(m, Entry(k, MapOf(own)[k]));
    }
    hide MapOf;
    if s, n :| s in ServicesOf(m) && n in ServiceNodes(m, s) && k == ServiceNetworkName(s.name, n.name) {
      var e := ServiceNetworkEntry(s)(n);
      EachMember(ServiceNodes(m, s), ServiceNetworkEntry(s), e);
      FlatMapMember(ServicesOf(m), ServiceNetworks(m), e);
      assert Key(e) == k;
    }
  }
}
