/** The compiler of topologies as it runs (wotemu/topology/compose.py): definitions are deep copies of shared
    templates, updated in place, and reading the brokers of a topology extends its list of them. */
module Compiler {
  import opened Collections
  import opened Topologies
  import ComposeSpec
  import ComposeTheorems

  type Definition = ComposeSpec.Definition
  type Entries = seq<ComposeSpec.Entry<Definition>>

  function SetOf(xs: seq<string>): set<string> { set x | x in xs }

  lemma SetOfConcat(xs: seq<string>, ys: seq<string>)
    ensures SetOf(xs + ys) == SetOf(xs) + SetOf(ys)
  {
  }

  class StringDict {
    var vars: map<string, string>

    constructor (vars: map<string, string>)
      ensures this.vars == vars
    {
      this.vars := vars;
    }

    method Update(more: map<string, string>)
      modifies this
      ensures vars == old(vars) + more
    {
      vars := vars + more;
    }
  }

  /** The dict of one service; its environment and its labels are dicts of their own, empty when absent. */
  class ServiceDict {
    var image: string
    var command: seq<string>
    var hostname: string
    var environment: StringDict
    var labels: StringDict
    var networks: seq<string>
    var dependsOn: seq<string>
    var ports: seq<string>
    var capAdd: seq<string>
    var volumes: seq<string>
    var deploy: ComposeSpec.Deploy

    constructor (d: Definition, environment: StringDict, labels: StringDict, networks: seq<string>, dependsOn: seq<string>)
      ensures this.environment == environment && this.labels == labels
      ensures this.networks == networks && this.dependsOn == dependsOn
      ensures Parts() == d.(environment := map[], labels := map[], networks := {}, dependsOn := {})
    {
      this.environment, this.labels, this.networks, this.dependsOn := environment, labels, networks, dependsOn;
      image, command, hostname, ports := d.image, d.command, d.hostname, d.ports;
      capAdd, volumes, deploy := d.capAdd, d.volumes, d.deploy;
    }

    /** The entries that the dict holds itself. */
    function Parts(): Definition
      reads this
    {
      ComposeSpec.Definition(image, command, hostname, map[], map[], {}, {}, ports, capAdd, volumes, deploy)
    }

    ghost function Value(): Definition
      reads this, environment, labels
    {
      Parts().(environment := environment.vars, labels := labels.vars, networks := SetOf(networks), dependsOn := SetOf(dependsOn))
    }

    /** `copy.deepcopy`. */
    method DeepCopy() returns (c: ServiceDict)
      ensures fresh(c) && fresh(c.environment) && fresh(c.labels) && c.environment != c.labels && c.Value() == old(Value())
    {
      var env := new StringDict(environment.vars);
      var marks := new StringDict(labels.vars);
      c := new ServiceDict(Parts(), env, marks, networks, dependsOn);
    }

    /** `service.update` with these four entries. */
    method Update(image: string, command: seq<string>, networks: seq<string>, dependsOn: seq<string>)
      modifies this
      ensures environment == old(environment) && labels == old(labels)
      ensures Value() == old(Value()).(image := image, command := command, networks := SetOf(networks),
                                                      dependsOn := SetOf(dependsOn))
    {
      this.image, this.command, this.networks, this.dependsOn := image, command, networks, dependsOn;
    }

    method SetImage(image: string)
      modifies this
      ensures environment == old(environment) && labels == old(labels)
      ensures Value() == old(Value()).(image := image)
    {
      this.image := image;
    }

    method SetNetworks(networks: seq<string>)
      modifies this
      ensures environment == old(environment) && labels == old(labels)
      ensures Value() == old(Value()).(networks := SetOf(networks))
    {
      this.networks := networks;
    }

    method SetPorts(ports: seq<string>)
      modifies this
      ensures environment == old(environment) && labels == old(labels)
      ensures Value() == old(Value()).(ports := ports)
    {
      this.ports := ports;
    }

    method SetDeploy(deploy: ComposeSpec.Deploy)
      modifies this
      ensures environment == old(environment) && labels == old(labels)
      ensures Value() == old(Value()).(deploy := deploy)
    {
      this.deploy := deploy;
    }

    /** `service["environment"].update`. */
    method UpdateEnvironment(more: map<string, string>)
      requires environment != labels
      modifies environment
      ensures Value() == old(Value()).(environment := old(Value()).environment + more)
    {
      environment.Update(more);
    }

    /** `service["labels"].update`. */
    method UpdateLabels(more: map<string, string>)
      requires environment != labels
      modifies labels
      ensures Value() == old(Value()).(labels := old(Value()).labels + more)
    {
      labels.Update(more);
    }
  }

  /** The module-level templates. */
  class Templates {
    const proxy: ServiceDict
    const redis: ServiceDict
    const generic: ServiceDict
    const gateway: ServiceDict
    const broker: ServiceDict
    const node: ServiceDict
    ghost const dicts: set<ServiceDict>
    ghost const vars: set<StringDict>

    constructor (p: ServiceDict, r: ServiceDict, s: ServiceDict, g: ServiceDict, b: ServiceDict, n: ServiceDict)
      requires p.Value() == ComposeSpec.PROXY && r.Value() == ComposeSpec.REDIS && s.Value() == ComposeSpec.GENERIC
      requires g.Value() == ComposeSpec.GATEWAY && b.Value() == ComposeSpec.BROKER && n.Value() == ComposeSpec.NODE
      ensures Valid()
    {
      proxy, redis, generic, gateway, broker, node := p, r, s, g, b, n;
      dicts := {p, r, s, g, b, n};
      vars := {p.environment, r.environment, s.environment, g.environment, b.environment, n.environment,
               p.labels, r.labels, s.labels, g.labels, b.labels, n.labels};
    }

    ghost predicate IsTemplate(t: ServiceDict, d: Definition)
      reads dicts, vars
    {
      t in dicts && t.environment in vars && t.labels in vars && t.Value() == d
    }

    ghost predicate Intact()
      reads dicts, vars
    {
      && IsTemplate(proxy, ComposeSpec.PROXY) && IsTemplate(redis, ComposeSpec.REDIS)
      && IsTemplate(generic, ComposeSpec.GENERIC) && IsTemplate(gateway, ComposeSpec.GATEWAY)
      && IsTemplate(broker, ComposeSpec.BROKER) && IsTemplate(node, ComposeSpec.NODE)
    }

    ghost predicate Valid()
      reads dicts, vars
    {
      Intact()
    }

    lemma TemplatesAre()
      requires Intact()
      ensures proxy.Value() == ComposeSpec.PROXY && redis.Value() == ComposeSpec.REDIS
      ensures generic.Value() == ComposeSpec.GENERIC && gateway.Value() == ComposeSpec.GATEWAY
      ensures broker.Value() == ComposeSpec.BROKER && node.Value() == ComposeSpec.NODE
    {
      hide ServiceDict.Value;
    }
  }

  method NewDict(d: Definition) returns (r: ServiceDict)
    requires d.networks == {} && d.dependsOn == {}
    ensures fresh(r) && fresh(r.environment) && fresh(r.labels) && r.Value() == d
  {
    var env := new StringDict(d.environment);
    var marks := new StringDict(d.labels);
    r := new ServiceDict(d, env, marks, [], []);
  }

  method LoadTemplates() returns (t: Templates)
    ensures t.Valid()
  {
    var p := NewDict(ComposeSpec.PROXY);
    var r := NewDict(ComposeSpec.REDIS);
    var s := NewDict(ComposeSpec.GENERIC);
    var g := NewDict(ComposeSpec.GATEWAY);
    var b := NewDict(ComposeSpec.BROKER);
    var n := NewDict(ComposeSpec.NODE);
    t := new Templates(p, r, s, g, b, n);
  }

  class BrokerList {
    var items: seq<Broker>

    constructor (items: seq<Broker>)
      ensures this.items == items
    {
      this.items := items;
    }
  }

  /** The dicts hold what the written entries say. */
  ghost predicate Holds(services: map<string, ServiceDict>, es: Entries)
    reads services.Values, set d | d in services.Values :: d.environment
    reads set d | d in services.Values :: d.labels
  {
    && services.Keys == ComposeSpec.MapOf(es).Keys
    && forall k | k in services :: services[k].Value() == ComposeSpec.MapOf(es)[k]
  }

  lemma HoldsNothing()
    ensures Holds(map[], [])
  {
  }

  lemma HoldsNext(services: map<string, ServiceDict>, es: Entries, k: string, d: ServiceDict)
    requires Holds(services, es)
    ensures Holds(services[k := d], es + [ComposeSpec.Entry(k, d.Value())])
  {
    var e := ComposeSpec.Entry(k, d.Value());
    assert (es + [e])[..|es|] == es;
    assert ComposeSpec.MapOf(es + [e]) == ComposeSpec.MapOf(es)[k := d.Value()];
  }

  /** Nothing but the explicit brokers differs. */
  predicate SameButBrokers(m: Model, g: Model) { g == m.(explicit := g.explicit) }

  /** The dicts are those of the compiled services. */
  lemma HoldsMeans(services: map<string, ServiceDict>, m: Model)
    requires Holds(services, ComposeSpec.ServiceEntries(m))
    ensures services.Keys == ComposeSpec.Compile(m).services.Keys
    ensures forall k | k in services :: services[k].Value() == ComposeSpec.Compile(m).services[k]
  {
    hide ServiceDict.Value;
  }

  lemma NextEntry<T>(services: map<string, ServiceDict>, es: Entries, xs: seq<T>, f: T -> ComposeSpec.Entry<Definition>,
                     i: nat, k: string, d: ServiceDict)
    requires i < |xs| && Holds(services, es + ComposeSpec.Each(xs[..i], f)) && f(xs[i]) == ComposeSpec.Entry(k, d.Value())
    ensures Holds(services[k := d], es + ComposeSpec.Each(xs[..i + 1], f))
  {
    HoldsNext(services, es + ComposeSpec.Each(xs[..i], f), k, d);
    EachNext(xs, f, i);
    assert es + ComposeSpec.Each(xs[..i], f) + [f(xs[i])] == es + (ComposeSpec.Each(xs[..i], f) + [f(xs[i])]);
  }

  /** No definition of a service depends on the explicit brokers. */
  lemma SameDefinitions(m: Model, g: Model)
    requires SameButBrokers(m, g)
    ensures forall net :: ComposeSpec.GatewayDefinition(m, net) == ComposeSpec.GatewayDefinition(g, net)
    ensures forall s :: ComposeSpec.ServiceDefinition(m, s) == ComposeSpec.ServiceDefinition(g, s)
    ensures forall n :: ComposeSpec.NodeDefinition(m, n) == ComposeSpec.NodeDefinition(g, n)
    ensures forall b :: ComposeSpec.BrokerDefinition(m, b) == ComposeSpec.BrokerDefinition(g, b)
  {
    assert forall s :: ServiceNodes(m, s) == ServiceNodes(g, s);
  }

  lemma GrowChangesBrokers(m: Model)
    ensures SameButBrokers(m, Grow(m))
  {
  }

  /** How many host services read the networks. */
  function Hosts(proxy: DockerProxy, redis: Redis): nat {
    (if proxy.enabled then 1 else 0) + if redis.enabled then 1 else 0
  }

  /** The entries of hosts, gateways and services. */
  function LowerEntries(m: Model): Entries {
    ComposeSpec.HostEntries(m, NetworksOf(m)) + ComposeSpec.Each(NetworksOf(m), ComposeSpec.GatewayEntry(m))
    + ComposeSpec.Each(ServicesOf(m), ComposeSpec.ServiceEntry(m))
  }

  /** The service entries before those of the brokers. */
  function FirstEntries(m: Model): Entries { LowerEntries(m) + ComposeSpec.Each(m.nodes, ComposeSpec.NodeEntry(m)) }

  lemma SameNodes(m: Model, g: Model)
    requires SameButBrokers(m, g)
    ensures m.nodes == g.nodes
  {
  }

  lemma FirstThenBrokers(m: Model)
    ensures ComposeSpec.ServiceEntries(m) == FirstEntries(m) + ComposeSpec.Each(BrokersOf(m), ComposeSpec.BrokerEntry(m))
  {
  }

  lemma HostEntriesAre(m: Model, nets: seq<Network>)
    ensures var first: Entries := if m.proxy.enabled then [] + [ComposeSpec.Entry(m.proxy.host, ComposeSpec.ProxyDefinition(nets))] else [];
            ComposeSpec.HostEntries(m, nets) ==
            if m.redis.enabled then first + [ComposeSpec.Entry(m.redis.host, ComposeSpec.RedisDefinition(nets))] else first
  {
  }

  lemma NoAccess(m: Model)
    ensures Grown(m, 0) == m
  {
  }

  lemma AfterAccesses(m: Model, times: nat)
    ensures Grow(Grown(m, times)) == Grown(m, times + 1) && SameButBrokers(m, Grown(m, times + 1))
    ensures BrokersOf(Grown(m, times)) == BrokersOf(m) && NetworksOf(Grown(m, times)) == NetworksOf(m)
  {
    GrownIs(m, times);
    GrownIs(m, times + 1);
  }

  lemma SameNetworkEntries(m: Model, g: Model, nets: seq<Network>)
    requires SameButBrokers(m, g)
    ensures ServicesOf(g) == ServicesOf(m)
    ensures ComposeSpec.Networks(g, nets, ServicesOf(m)) == ComposeSpec.Networks(m, nets, ServicesOf(m))
  {
    ComposeTheorems.NetworksIgnoreBrokers(m, g, nets, ServicesOf(m));
  }

  lemma MapOfNext<V>(es: seq<ComposeSpec.Entry<V>>, e: ComposeSpec.Entry<V>)
    ensures ComposeSpec.MapOf(es + [e]) == ComposeSpec.MapOf(es)[e.key := e.value]
  {
    assert (es + [e])[..|es|] == es;
  }

  lemma EmptyMap<A, V>(xs: seq<A>, f: A -> ComposeSpec.Entry<V>)
    ensures ComposeSpec.MapOf(ComposeSpec.Each(xs[..0], f)) == map[]
  {
  }

  lemma FlatMapNone<A, B>(xs: seq<A>, f: A -> seq<B>, ys: seq<B>)
    ensures ys + FlatMap(xs[..0], f) == ys
  {
  }

  lemma FlatMapNext<A, B>(xs: seq<A>, f: A -> seq<B>, i: nat, ys: seq<B>)
    requires i < |xs|
    ensures ys + FlatMap(xs[..i + 1], f) == ys + FlatMap(xs[..i], f) + f(xs[i])
  {
    assert xs[..i + 1] == xs[..i] + [xs[i]];
    FlatMapConcat(xs[..i], [xs[i]], f);
    FlatMapOne(xs[i], f);
  }

  lemma EachNone<A>(xs: seq<A>, f: A -> ComposeSpec.Entry<Definition>, es: Entries)
    ensures es + ComposeSpec.Each(xs[..0], f) == es
  {
  }

  lemma EachNext<A, B>(xs: seq<A>, f: A -> B, i: nat)
    requires i < |xs|
    ensures ComposeSpec.Each(xs[..i + 1], f) == ComposeSpec.Each(xs[..i], f) + [f(xs[i])]
  {
  }

  class Topology {
    const nodes: seq<Node>
    const explicit: BrokerList?
    const redis: Redis
    const proxy: DockerProxy
    const ports: map<string, Option<string>>
    const templates: Templates

    constructor (nodes: seq<Node>, explicit: BrokerList?, redis: Redis, proxy: DockerProxy, ports: map<string, Option<string>>,
                 templates: Templates)
      ensures this.nodes == nodes && this.explicit == explicit && this.redis == redis && this.proxy == proxy
      ensures this.ports == ports && this.templates == templates
    {
      this.nodes, this.explicit, this.redis, this.proxy, this.ports := nodes, explicit, redis, proxy, ports;
      this.templates := templates;
    }

    /** What the topology holds now. */
    function Snapshot(): Model
      reads explicit
    {
      Model(nodes, if explicit == null then [] else explicit.items, redis, proxy, ports)
    }

    /** The property `brokers`. */
    method Brokers() returns (r: seq<Broker>)
      modifies explicit
      ensures Snapshot() == Grow(old(Snapshot()))
      ensures r == BrokersOf(old(Snapshot()))
    {
      var brokers := NodeBrokers(nodes);
      if explicit != null && explicit.items != [] {
        explicit.items := explicit.items + brokers;
        brokers := explicit.items;
      } else {
        assert AllBrokers(Snapshot()) == brokers;
      }
      r := FirstByName(brokers, BrokerName);
    }

    /** The property `networks`. */
    method Networks() returns (r: seq<Network>)
      modifies explicit
      ensures Snapshot() == Grow(old(Snapshot()))
      ensures r == NetworksOf(old(Snapshot()))
    {
      var brokers := Brokers();
      r := FirstByName(NetworksUsed(Snapshot(), brokers), NetName);
    }

    /** `_merge_topology_config`. */
    method MergeConfig(d: ServiceDict)
      requires d.environment != d.labels
      modifies d.environment
      ensures d.Value() == old(d.Value()).(environment := old(d.Value()).environment + ComposeSpec.Config(Snapshot()))
    {
      hide ServiceDict.Value, ComposeSpec.Config;
      d.UpdateEnvironment(ComposeSpec.Config(Snapshot()));
    }

    method Infrastructure() returns (hosts: seq<string>)
      ensures SetOf(hosts) == ComposeSpec.Infrastructure(Snapshot())
    {
      hosts := [];
      if proxy.enabled {
        hosts := hosts + [proxy.host];
      }
      if redis.enabled {
        hosts := hosts + [redis.host];
      }
    }

    /** `get_docker_proxy_definition`. */
    method ProxyDict() returns (d: ServiceDict)
      requires templates.Valid()
      modifies explicit
      ensures fresh(d) && fresh(d.environment) && fresh(d.labels) && Snapshot() == Grow(old(Snapshot()))
      ensures d.Value() == ComposeSpec.ProxyDefinition(NetworksOf(old(Snapshot())))
    {
      hide ServiceDict.Value, SetOf, Names, NetworksOf, Grow, Templates.Intact;
      var nets := Networks();
      NamesOf(nets);
      templates.TemplatesAre();
      d := templates.proxy.DeepCopy();
      d.SetNetworks(ComposeSpec.Each(nets, NetName));
    }

    /** `get_redis_definition`. */
    method RedisDict() returns (d: ServiceDict)
      requires templates.Valid()
      modifies explicit
      ensures fresh(d) && fresh(d.environment) && fresh(d.labels) && Snapshot() == Grow(old(Snapshot()))
      ensures d.Value() == ComposeSpec.RedisDefinition(NetworksOf(old(Snapshot())))
    {
      hide ServiceDict.Value, SetOf, Names, NetworksOf, Grow, Templates.Intact;
      var nets := Networks();
      NamesOf(nets);
      templates.TemplatesAre();
      d := templates.redis.DeepCopy();
      d.SetNetworks(ComposeSpec.Each(nets, NetName));
      d.SetPorts(["6379"]);
    }

    /** `get_generic_service_definition`. */
    method GenericDict(s: Service) returns (d: ServiceDict)
      requires templates.Valid()
      ensures fresh(d) && fresh(d.environment) && fresh(d.labels) && d.Value() == ComposeSpec.ServiceDefinition(Snapshot(), s)
    {
      hide ServiceDict.Value, ServiceNodes, Templates.Intact;
      var holders := ServiceNodes(Snapshot(), s);
      SetOfEach(holders, PrivateNetwork(s));
      assert SetOf(ComposeSpec.Each(holders, PrivateNetwork(s))) == ComposeSpec.ServiceNetworkNames(Snapshot(), s);
      hide SetOf, ComposeSpec.ServiceNetworkNames;
      templates.TemplatesAre();
      d := templates.generic.DeepCopy();
      d.UpdateEnvironment(s.params.env);
      d.UpdateLabels(s.params.labels);
      d.SetDeploy(ComposeSpec.NO_DEPLOY.(condition := s.params.condition, mode := s.params.mode));
      d.SetImage(s.image);
      d.SetNetworks(ComposeSpec.Each(holders, PrivateNetwork(s)));
    }

    /** `get_network_gateway_definition`. */
    method GatewayDict(net: Network) returns (d: ServiceDict)
      requires templates.Valid()
      ensures fresh(d) && fresh(d.environment) && fresh(d.labels) && d.Value() == ComposeSpec.GatewayDefinition(Snapshot(), net)
    {
      hide ServiceDict.Value, ComposeSpec.Infrastructure, ComposeSpec.Config, Templates.Intact;
      var dependsOn := Infrastructure();
      assert SetOf([net.name]) == {net.name};
      hide SetOf;
      templates.TemplatesAre();
      d := templates.gateway.DeepCopy();
      d.Update(ComposeSpec.BASE_IMAGE, ["gateway"] + net.netem, [net.name], dependsOn);
      MergeConfig(d);
    }

    /** `get_broker_definition`. */
    method BrokerDict(b: Broker) returns (d: ServiceDict)
      requires templates.Valid()
      ensures fresh(d) && fresh(d.environment) && fresh(d.labels) && d.Value() == ComposeSpec.BrokerDefinition(Snapshot(), b)
    {
      hide ServiceDict.Value, ComposeSpec.Infrastructure, ComposeSpec.Config, SetOf, Names, ComposeSpec.Gateways, Templates.Intact;
      var hosts := Infrastructure();
      var gateways := ComposeSpec.Each(b.networks, GatewayOf);
      SetOfConcat(gateways, hosts);
      NamesOf(b.networks);
      templates.TemplatesAre();
      d := templates.broker.DeepCopy();
      d.Update(ComposeSpec.BASE_IMAGE, ["broker"], ComposeSpec.Each(b.networks, NetName), gateways + hosts);
      MergeConfig(d);
    }

    /** The networks and dependencies of a node whose broker network can be looked up. */
    method NodeLinks(n: Node) returns (networks: seq<string>, dependsOn: seq<string>)
      requires !BrokerFails(n)
      ensures SetOf(networks) == Names(n.networks + Attached(n), NetName) + ComposeSpec.LinkedNetworks(n)
      ensures SetOf(dependsOn) == ComposeSpec.Gateways(n.networks + Attached(n)) + ComposeSpec.Infrastructure(Snapshot())
    {
      networks := ComposeSpec.Each(n.networks, NetName);
      var i := 0;
      while i < |n.services|
        invariant 0 <= i <= |n.services|
        invariant networks == ComposeSpec.Each(n.networks, NetName) + ComposeSpec.Each(n.services[..i], LinkOf(n))
      {
        EachNext(n.services, LinkOf(n), i);
        networks := networks + [ServiceNetworkName(n.services[i].name, n.name)];
        i := i + 1;
      }
      assert n.services[..i] == n.services;
      var hosts := Infrastructure();
      dependsOn := ComposeSpec.Each(n.networks, GatewayOf) + hosts;
      if n.broker.Some? {
        var net := BrokerNetwork(n).value;
        networks := networks + [net.name];
        dependsOn := dependsOn + [GatewayName(net.name)];
      }
      NodeLists(n, ComposeSpec.Infrastructure(Snapshot()), hosts, networks, dependsOn);
    }

    /** The broker host and the target speed of a node. */
    method SetNodeEnvironment(n: Node, d: ServiceDict)
      requires !BrokerFails(n) && d.environment != d.labels
      modifies d.environment
      ensures d.Value() == old(d.Value()).(environment := old(d.Value()).environment + ComposeSpec.BrokerEnvironment(n)
                                                          + ComposeSpec.SpeedEnvironment(n))
    {
      hide ServiceDict.Value;
      ghost var before := d.Value().environment;
      assert before + map[] == before && before + ComposeSpec.BrokerEnvironment(n) + map[] == before + ComposeSpec.BrokerEnvironment(n);
      if n.broker.Some? {
        d.UpdateEnvironment(map["MQTT_BROKER_HOST" := n.broker.value.name + "." + BrokerNetwork(n).value.name]);
      }
      if n.resources.Some? && n.resources.value.speed.Some? {
        d.UpdateEnvironment(map["TARGET_CPU_SPEED" := n.resources.value.speed.value]);
      }
    }

    /** `get_node_definition`, up to the failure of its assertion on the broker network. */
    method NodeDict(n: Node) returns (failure: Option<Failure>, r: Option<ServiceDict>)
      requires templates.Valid()
      ensures failure == BrokerFailure(n) && (r.Some? <==> failure.None?)
      ensures r.Some? ==> fresh(r.value) && fresh(r.value.environment) && fresh(r.value.labels)
      ensures r.Some? ==> r.value.Value() == ComposeSpec.NodeDefinition(Snapshot(), n)
    {
      hide ServiceDict.Value, Names, ComposeSpec.Config, ComposeSpec.Gateways, ComposeSpec.LinkedNetworks, Attached, SetOf,
           ComposeSpec.Infrastructure, ComposeSpec.BrokerEnvironment, ComposeSpec.SpeedEnvironment,
           ComposeSpec.ResourcesDefinition, BrokerFailure, Templates.Intact;
      failure, r := BrokerFailure(n), None;
      if failure.Some? {
        return;
      }
      var networks, dependsOn := NodeLinks(n);
      var deploy := ComposeSpec.NO_DEPLOY;
      if n.resources.Some? {
        deploy := deploy.(resources := ComposeSpec.ResourcesDefinition(n.resources.value));
      }
      deploy := deploy.(replicas := n.scale);
      templates.TemplatesAre();
      var d := templates.node.DeepCopy();
      SetNodeEnvironment(n, d);
      d.Update(n.image, n.command, networks, dependsOn);
      d.SetDeploy(deploy);
      MergeConfig(d);
      r := Some(d);
    }

    method AddGateways(ghost m: Model, services: map<string, ServiceDict>, ghost es: Entries, nets: seq<Network>)
      returns (out: map<string, ServiceDict>)
      requires templates.Valid() && SameButBrokers(m, Snapshot()) && Holds(services, es)
      ensures Holds(out, es + ComposeSpec.Each(nets, ComposeSpec.GatewayEntry(m)))
      ensures forall k | k in out :: (k in services && out[k] == services[k])
                                     || (fresh(out[k]) && fresh(out[k].environment) && fresh(out[k].labels))
    {
      hide Templates.Intact, ServiceDict.Value, Holds, SetOf, ComposeSpec.Each, ComposeSpec.MapOf;
      out := services;
      var i := 0;
      EachNone(nets, ComposeSpec.GatewayEntry(m), es);
      while i < |nets|
        invariant 0 <= i <= |nets| && Holds(out, es + ComposeSpec.Each(nets[..i], ComposeSpec.GatewayEntry(m)))
        invariant forall k | k in out :: (k in services && out[k] == services[k])
                                     || (fresh(out[k]) && fresh(out[k].environment) && fresh(out[k].labels))
      {
        var d := GatewayDict(nets[i]);
        SameDefinitions(m, Snapshot());
        NextEntry(out, es, nets, ComposeSpec.GatewayEntry(m), i, GatewayName(nets[i].name), d);
        out := out[GatewayName(nets[i].name) := d];
        i := i + 1;
      }
      assert nets[..i] == nets;
    }

    method AddServices(ghost m: Model, services: map<string, ServiceDict>, ghost es: Entries, srvs: seq<Service>)
      returns (out: map<string, ServiceDict>)
      requires templates.Valid() && SameButBrokers(m, Snapshot()) && Holds(services, es)
      ensures Holds(out, es + ComposeSpec.Each(srvs, ComposeSpec.ServiceEntry(m)))
      ensures forall k | k in out :: (k in services && out[k] == services[k])
                                     || (fresh(out[k]) && fresh(out[k].environment) && fresh(out[k].labels))
    {
      hide Templates.Intact, ServiceDict.Value, Holds, SetOf, ComposeSpec.Each, ComposeSpec.MapOf;
      out := services;
      var i := 0;
      EachNone(srvs, ComposeSpec.ServiceEntry(m), es);
      while i < |srvs|
        invariant 0 <= i <= |srvs| && Holds(out, es + ComposeSpec.Each(srvs[..i], ComposeSpec.ServiceEntry(m)))
        invariant forall k | k in out :: (k in services && out[k] == services[k])
                                     || (fresh(out[k]) && fresh(out[k].environment) && fresh(out[k].labels))
      {
        var d := GenericDict(srvs[i]);
        SameDefinitions(m, Snapshot());
        NextEntry(out, es, srvs, ComposeSpec.ServiceEntry(m), i, srvs[i].name, d);
        out := out[srvs[i].name := d];
        i := i + 1;
      }
      assert srvs[..i] == srvs;
    }

    method AddBrokers(ghost m: Model, services: map<string, ServiceDict>, ghost es: Entries, brokers: seq<Broker>)
      returns (out: map<string, ServiceDict>)
      requires templates.Valid() && SameButBrokers(m, Snapshot()) && Holds(services, es)
      ensures Holds(out, es + ComposeSpec.Each(brokers, ComposeSpec.BrokerEntry(m)))
      ensures forall k | k in out :: (k in services && out[k] == services[k])
                                     || (fresh(out[k]) && fresh(out[k].environment) && fresh(out[k].labels))
    {
      hide Templates.Intact, ServiceDict.Value, Holds, SetOf, ComposeSpec.Each, ComposeSpec.MapOf;
      out := services;
      var i := 0;
      EachNone(brokers, ComposeSpec.BrokerEntry(m), es);
      while i < |brokers|
        invariant 0 <= i <= |brokers| && Holds(out, es + ComposeSpec.Each(brokers[..i], ComposeSpec.BrokerEntry(m)))
        invariant forall k | k in out :: (k in services && out[k] == services[k])
                                     || (fresh(out[k]) && fresh(out[k].environment) && fresh(out[k].labels))
      {
        var d := BrokerDict(brokers[i]);
        SameDefinitions(m, Snapshot());
        NextEntry(out, es, brokers, ComposeSpec.BrokerEntry(m), i, brokers[i].name, d);
        out := out[brokers[i].name := d];
        i := i + 1;
      }
      assert brokers[..i] == brokers;
    }

    /** Stops at the first node whose broker network is looked up in vain. */
    method AddNodes(ghost m: Model, services: map<string, ServiceDict>, ghost es: Entries)
      returns (failure: Option<Failure>, out: map<string, ServiceDict>)
      requires templates.Valid() && SameButBrokers(m, Snapshot()) && Holds(services, es)
      ensures failure == FirstFailure(nodes)
      ensures failure.None? ==> Holds(out, es + ComposeSpec.Each(nodes, ComposeSpec.NodeEntry(m)))
      ensures forall k | k in out :: (k in services && out[k] == services[k])
                                     || (fresh(out[k]) && fresh(out[k].environment) && fresh(out[k].labels))
    {
      hide Templates.Intact, ServiceDict.Value, Holds, SetOf, ComposeSpec.Each, ComposeSpec.MapOf, ComposeSpec.NodeDefinition, BrokerFailure;
      out, failure := services, None;
      var i := 0;
      EachNone(nodes, ComposeSpec.NodeEntry(m), es);
      while i < |nodes|
        invariant 0 <= i <= |nodes| && Holds(out, es + ComposeSpec.Each(nodes[..i], ComposeSpec.NodeEntry(m)))
        invariant failure.None? && forall j | 0 <= j < i :: !BrokerFails(nodes[j])
        invariant forall k | k in out :: (k in services && out[k] == services[k])
                                     || (fresh(out[k]) && fresh(out[k].environment) && fresh(out[k].labels))
      {
        var r;
        FirstFailureFrom(nodes, i);
        failure, r := NodeDict(nodes[i]);
        if failure.Some? {
          return;
        }
        SameDefinitions(m, Snapshot());
        NextEntry(out, es, nodes, ComposeSpec.NodeEntry(m), i, nodes[i].name, r.value);
        out := out[nodes[i].name := r.value];
        i := i + 1;
      }
      FirstFailureFrom(nodes, i);
      assert nodes[..i] == nodes;
    }

    /** `_service_networks`. */
    method ServiceNetworkDicts(s: Service) returns (nets: map<string, ComposeSpec.NetworkDefinition>)
      ensures nets == ComposeSpec.MapOf(ComposeSpec.ServiceNetworks(Snapshot())(s))
    {
      var holders := ServiceNodes(Snapshot(), s);
      nets := map[];
      var i := 0;
      while i < |holders|
        invariant 0 <= i <= |holders|
        invariant nets == ComposeSpec.MapOf(ComposeSpec.Each(holders[..i], ComposeSpec.ServiceNetworkEntry(s)))
      {
        var name := ServiceNetworkName(s.name, holders[i].name);
        EachNext(holders, ComposeSpec.ServiceNetworkEntry(s), i);
        MapOfNext(ComposeSpec.Each(holders[..i], ComposeSpec.ServiceNetworkEntry(s)), ComposeSpec.ServiceNetworkEntry(s)(holders[i]));
        nets := nets[name := ComposeSpec.SERVICE_NETWORK.(name := name)];
        i := i + 1;
      }
      assert holders[..i] == holders;
    }

    method NetworkDicts(nets: seq<Network>, srvs: seq<Service>) returns (out: map<string, ComposeSpec.NetworkDefinition>)
      ensures out == ComposeSpec.MapOf(ComposeSpec.Networks(Snapshot(), nets, srvs))
    {
      hide ComposeSpec.MapOf, ComposeSpec.Each, ComposeSpec.ServiceNetworks, FlatMap;
      out := map[];
      var i := 0;
      EmptyMap(nets, ComposeSpec.NetworkEntry);
      while i < |nets|
        invariant 0 <= i <= |nets| && out == ComposeSpec.MapOf(ComposeSpec.Each(nets[..i], ComposeSpec.NetworkEntry))
      {
        EachNext(nets, ComposeSpec.NetworkEntry, i);
        MapOfNext(ComposeSpec.Each(nets[..i], ComposeSpec.NetworkEntry), ComposeSpec.NetworkEntry(nets[i]));
        out := out[nets[i].name := ComposeSpec.NETWORK.(name := nets[i].name)];
        i := i + 1;
      }
      assert nets[..i] == nets;
      ghost var plain, own := ComposeSpec.Each(nets, ComposeSpec.NetworkEntry), ComposeSpec.ServiceNetworks(Snapshot());
      FlatMapNone(srvs, own, plain);
      i := 0;
      while i < |srvs|
        invariant 0 <= i <= |srvs| && out == ComposeSpec.MapOf(plain + FlatMap(srvs[..i], own))
      {
        var more := ServiceNetworkDicts(srvs[i]);
        ComposeSpec.MapOfConcat(plain + FlatMap(srvs[..i], own), own(srvs[i]));
        FlatMapNext(srvs, own, i, plain);
        out := out + more;
        i := i + 1;
      }
      assert srvs[..i] == srvs;
    }

    /** The enabled hosts; each reads the networks of the topology. */
    method AddHosts() returns (services: map<string, ServiceDict>)
      requires templates.Valid()
      modifies explicit
      ensures Snapshot() == Grown(old(Snapshot()), Hosts(proxy, redis))
      ensures Holds(services, ComposeSpec.HostEntries(old(Snapshot()), NetworksOf(old(Snapshot()))))
      ensures forall k | k in services :: fresh(services[k]) && fresh(services[k].environment) && fresh(services[k].labels)
    {
      hide Templates.Intact, ServiceDict.Value, NetworksOf, BrokersOf, Grow, Grown, Holds, SameButBrokers;
      hide ComposeSpec.MapOf, ComposeSpec.HostEntries, ComposeSpec.ProxyDefinition, ComposeSpec.RedisDefinition;
      ghost var m := Snapshot();
      ghost var nets := NetworksOf(m);
      services := map[];
      ghost var es: Entries := [];
      HoldsNothing();
      HostEntriesAre(m, nets);
      NoAccess(m);
      AfterAccesses(m, 0);
      AfterAccesses(m, 1);
      if proxy.enabled {
        var d := ProxyDict();
        HoldsNext(services, es, proxy.host, d);
        services := services[proxy.host := d];
        es := es + [ComposeSpec.Entry(proxy.host, ComposeSpec.ProxyDefinition(nets))];
      }
      if redis.enabled {
        var d := RedisDict();
        HoldsNext(services, es, redis.host, d);
        services := services[redis.host := d];
        es := es + [ComposeSpec.Entry(redis.host, ComposeSpec.RedisDefinition(nets))];
      }
    }

    /** The loops over networks and services. */
    method AddLower(ghost m: Model, services: map<string, ServiceDict>, nets: seq<Network>)
      returns (out: map<string, ServiceDict>)
      requires templates.Valid() && SameButBrokers(m, Snapshot()) && nets == NetworksOf(m)
      requires Holds(services, ComposeSpec.HostEntries(m, nets))
      ensures Holds(out, LowerEntries(m))
      ensures forall k | k in out :: (k in services && out[k] == services[k])
                                     || (fresh(out[k]) && fresh(out[k].environment) && fresh(out[k].labels))
    {
      hide Templates.Intact, ServiceDict.Value, Holds, ComposeSpec.MapOf, ComposeSpec.Each, ComposeSpec.HostEntries;
      hide ServicesOf, NetworksOf, SameButBrokers;
      SameNetworkEntries(m, Snapshot(), nets);
      var srvs := ServicesOf(Snapshot());
      ghost var es := ComposeSpec.HostEntries(m, nets);
      out := AddGateways(m, services, es, nets);
      out := AddServices(m, out, es + ComposeSpec.Each(nets, ComposeSpec.GatewayEntry(m)), srvs);
    }

    /** The loops over networks, services and nodes. */
    method AddLayers(ghost m: Model, services: map<string, ServiceDict>, nets: seq<Network>)
      returns (failure: Option<Failure>, out: map<string, ServiceDict>)
      requires templates.Valid() && SameButBrokers(m, Snapshot()) && nets == NetworksOf(m)
      requires Holds(services, ComposeSpec.HostEntries(m, nets))
      ensures failure == FirstFailure(nodes)
      ensures failure.None? ==> Holds(out, FirstEntries(m))
      ensures forall k | k in out :: (k in services && out[k] == services[k])
                                     || (fresh(out[k]) && fresh(out[k].environment) && fresh(out[k].labels))
    {
      hide Templates.Intact, ServiceDict.Value, Holds, FirstFailure, ComposeSpec.Each, ComposeSpec.HostEntries;
      hide LowerEntries, NetworksOf, SameButBrokers;
      SameNodes(m, Snapshot());
      out := AddLower(m, services, nets);
      failure, out := AddNodes(m, out, LowerEntries(m));
    }

    /** All services but the brokers. */
    method CompileFirst() returns (failure: Option<Failure>, services: map<string, ServiceDict>)
      requires templates.Valid()
      modifies explicit
      ensures failure == FirstFailure(nodes)
      ensures Snapshot() == Grown(old(Snapshot()), Hosts(proxy, redis) + 1)
      ensures failure.None? ==> Holds(services, FirstEntries(old(Snapshot())))
      ensures forall k | k in services :: fresh(services[k]) && fresh(services[k].environment) && fresh(services[k].labels)
    {
      ghost var m := Snapshot();
      hide Templates.Intact, ServiceDict.Value, Holds, NetworksOf, BrokersOf, FirstFailure, FirstEntries, Grow, Grown, SameButBrokers, Hosts, ComposeSpec.HostEntries;
      AfterAccesses(m, Hosts(proxy, redis));
      services := AddHosts();
      var nets := Networks();
      failure, services := AddLayers(m, services, nets);
    }

    /** The loop over brokers. */
    method AddAllBrokers(ghost m: Model, services: map<string, ServiceDict>) returns (out: map<string, ServiceDict>)
      requires templates.Valid() && SameButBrokers(m, Snapshot()) && BrokersOf(Snapshot()) == BrokersOf(m)
      requires Holds(services, FirstEntries(m))
      modifies explicit
      ensures Snapshot() == Grow(old(Snapshot()))
      ensures Holds(out, ComposeSpec.ServiceEntries(m))
      ensures forall k | k in out :: (k in services && out[k] == services[k])
                                     || (fresh(out[k]) && fresh(out[k].environment) && fresh(out[k].labels))
    {
      FirstThenBrokers(m);
      hide Templates.Intact, ServiceDict.Value, BrokersOf, FirstEntries, ComposeSpec.ServiceEntries, ComposeSpec.Each, ComposeSpec.BrokerEntry, ComposeSpec.MapOf;
      var brokers := Brokers();
      hide Holds;
      GrowChangesBrokers(old(Snapshot()));
      hide Grow;
      out := AddBrokers(m, services, FirstEntries(m), brokers);
    }

    /** The services of `get_topology_definition`. */
    method CompileServices() returns (failure: Option<Failure>, services: map<string, ServiceDict>)
      requires templates.Valid()
      modifies explicit
      ensures failure == FirstFailure(nodes)
      ensures Snapshot() == Grown(old(Snapshot()), Hosts(proxy, redis) + if failure.Some? then 1 else 2)
      ensures failure.None? ==> Holds(services, ComposeSpec.ServiceEntries(old(Snapshot())))
      ensures forall k | k in services :: fresh(services[k]) && fresh(services[k].environment) && fresh(services[k].labels)
    {
      hide Templates.Intact, ServiceDict.Value, Holds, BrokersOf, NetworksOf, ServicesOf, FirstFailure, FirstEntries, Grow, Grown, SameButBrokers, Hosts, ComposeSpec.ServiceEntries;
      ghost var m := Snapshot();
      AfterAccesses(m, Hosts(proxy, redis));
      AfterAccesses(m, Hosts(proxy, redis) + 1);
      failure, services := CompileFirst();
      if failure.None? {
        services := AddAllBrokers(m, services);
      }
    }

    /** `get_topology_definition`: the specified definition in new dicts, unless the broker network of a node
        is looked up in vain. Nothing but the list of brokers changes; the templates in particular stay. */
    method ToComposeDict()
      returns (failure: Option<Failure>, services: map<string, ServiceDict>, networks: map<string, ComposeSpec.NetworkDefinition>)
      requires templates.Valid()
      modifies explicit
      ensures failure == FirstFailure(nodes)
      ensures Snapshot() == Grown(old(Snapshot()), Hosts(proxy, redis) + if failure.Some? then 1 else 3)
      ensures failure.None? ==> Holds(services, ComposeSpec.ServiceEntries(old(Snapshot())))
      ensures failure.None? ==> services.Keys == ComposeSpec.Compile(old(Snapshot())).services.Keys
      ensures failure.None? ==>
                forall k | k in services :: services[k].Value() == ComposeSpec.Compile(old(Snapshot())).services[k]
      ensures failure.None? ==> networks == ComposeSpec.Compile(old(Snapshot())).networks
      ensures forall k | k in services :: fresh(services[k]) && fresh(services[k].environment) && fresh(services[k].labels)
    {
      ghost var m := Snapshot();
      ghost var h := Hosts(proxy, redis);
      hide Templates.Intact, ServiceDict.Value, Holds, NetworksOf, BrokersOf, ServicesOf, FirstFailure, Grow, Grown, SameButBrokers, Hosts;
      hide ComposeSpec.MapOf, ComposeSpec.ServiceEntries, ComposeSpec.Networks;
      AfterAccesses(m, h + 2);
      failure, services := CompileServices();
      networks := map[];
      if failure.None? {
        var nets := Networks();
        networks := NetworkDicts(nets, ServicesOf(Snapshot()));
        SameNetworkEntries(m, Snapshot(), nets);
        HoldsMeans(services, m);
      }
    }
  }

  function LinkOf(n: Node): Service -> string { (s: Service) => ServiceNetworkName(s.name, n.name) }

  /** The lists of a node hold what its definition says. */
  lemma NodeLists(n: Node, infra: set<string>, hosts: seq<string>, networks: seq<string>, dependsOn: seq<string>)
    requires SetOf(hosts) == infra
    requires networks == ComposeSpec.Each(n.networks, NetName) + ComposeSpec.Each(n.services, LinkOf(n))
                         + ComposeSpec.Each(Attached(n), NetName)
    requires dependsOn == ComposeSpec.Each(n.networks, GatewayOf) + hosts + ComposeSpec.Each(Attached(n), GatewayOf)
    ensures SetOf(networks) == Names(n.networks + Attached(n), NetName) + ComposeSpec.LinkedNetworks(n)
    ensures SetOf(dependsOn) == ComposeSpec.Gateways(n.networks + Attached(n)) + infra
  {
    var own, linked, attached := ComposeSpec.Each(n.networks, NetName), ComposeSpec.Each(n.services, LinkOf(n)),
                                 ComposeSpec.Each(Attached(n), NetName);
    SetOfConcat(own + linked, attached);
    SetOfConcat(own, linked);
    NamesConcat(n.networks, Attached(n), NetName);
    SetOfEach(n.services, LinkOf(n));
    NamesOf(n.networks);
    NamesOf(Attached(n));
    var gateways, more := ComposeSpec.Each(n.networks, GatewayOf), ComposeSpec.Each(Attached(n), GatewayOf);
    SetOfConcat(gateways + hosts, more);
    SetOfConcat(gateways, hosts);
  }

  lemma SetOfEach<T>(xs: seq<T>, f: T -> string)
    ensures forall k :: k in SetOf(ComposeSpec.Each(xs, f)) <==> exists x :: x in xs && k == f(x)
  {
    forall k ensures k in SetOf(ComposeSpec.Each(xs, f)) <==> exists x :: x in xs && k == f(x) {
      ComposeSpec.EachMember(xs, f, k);
    }
  }

  /** The constructor of `Topology`, which compares sizes of sets; nothing for an `AssertionError`. Node names
      must be distinct and no service may be named as a node; brokers and gateways are not looked at. */
  method NewTopology(nodes: seq<Node>, explicit: BrokerList?, redis: Redis, proxy: DockerProxy, ports: map<string, Option<string>>,
                     templates: Templates) returns (r: Option<Topology>)
    ensures r.Some? <==>
            DistinctNames(nodes, NodeName)
            && forall n, k, s | n in nodes && k in nodes && s in k.services :: n.name != s.name
    ensures r.Some? ==> fresh(r.value) && r.value.templates == templates
                        && r.value.Snapshot() == Model(nodes, if explicit == null then [] else explicit.items, redis, proxy, ports)
  {
    var t := new Topology(nodes, explicit, redis, proxy, ports, templates);
    var services := ServicesOf(t.Snapshot());
    SizesAddUp(t.Snapshot());
    if |FirstByName(nodes, NodeName)| != |nodes|
       || |Names(services, ServiceName) + Names(nodes, NodeName)| != |services| + |nodes| {
      return None;
    }
    return Some(t);
  }

  lemma ServicesApart(m: Model)
    ensures Names(ServicesOf(m), ServiceName) * Names(m.nodes, NodeName) == {}
            <==> forall n, k, s | n in m.nodes && k in m.nodes && s in k.services :: n.name != s.name
  {
    hide FirstByName;
    FirstByNameCollects(AllServices(m), ServiceName);
    var a, b := Names(ServicesOf(m), ServiceName), Names(m.nodes, NodeName);
    forall s { AllServicesAre(m, s); }
    if a * b == {} {
      forall n, k, s | n in m.nodes && k in m.nodes && s in k.services ensures n.name != s.name {
        assert ServiceName(s) in a && NodeName(n) in b;
        assert s.name !in a * b;
      }
    } else {
      var name :| name in a * b;
      var s :| s in AllServices(m) && s.name == name;
      var n :| n in m.nodes && n.name == name;
    }
  }

  lemma SizesAddUp(m: Model)
    ensures |FirstByName(m.nodes, NodeName)| == |m.nodes| <==> DistinctNames(m.nodes, NodeName)
    ensures DistinctNames(m.nodes, NodeName) ==>
              (|Names(ServicesOf(m), ServiceName) + Names(m.nodes, NodeName)| == |ServicesOf(m)| + |m.nodes|
               <==> forall n, k, s | n in m.nodes && k in m.nodes && s in k.services :: n.name != s.name)
  {
    hide FirstByName, Names, DistinctNames;
    FirstByNameCollects(m.nodes, NodeName);
    FirstByNameCollects(AllServices(m), ServiceName);
    SizeOfNames(m.nodes, NodeName);
    SizeOfNames(FirstByName(m.nodes, NodeName), NodeName);
    SizeOfNames(ServicesOf(m), ServiceName);
    ServicesApart(m);
    var a, b := Names(ServicesOf(m), ServiceName), Names(m.nodes, NodeName);
    assert |a + b| == |a| + |b| - |a * b|;
    assert |a * b| == 0 <==> a * b == {};
  }

  lemma NamesOf(nets: seq<Network>)
    ensures SetOf(ComposeSpec.Each(nets, NetName)) == Names(nets, NetName)
    ensures SetOf(ComposeSpec.Each(nets, GatewayOf)) == ComposeSpec.Gateways(nets)
  {
    SetOfEach(nets, NetName);
    SetOfEach(nets, GatewayOf);
  }
}
