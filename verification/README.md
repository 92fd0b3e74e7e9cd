# wotemu, modelled in Dafny

wotemu emulates networks of Web of Things servients on Docker Swarm. Most of it drives external tools; this
project models the five parts that carry logic of their own and proves what they keep.

- **Traffic attribution** (`Subnets`, `Attribution`, `AttributionTheorems`, `Names`, `Traffic`, `TrafficCells`). Captured packets
  are joined four times with tables of task addresses and service VIPs, coalesced, filtered, grouped by service and
  laid out as a heatmap. Tables are sequences of rows in which duplicates and missing values are allowed.
- **The memoising reader proxy of the report builder** (`CacheModel`, `ReaderCache`, `CacheSession`). A pure model of
  sessions (calls, edits of returned results and of the objects in them, cache toggles, resets), the proxy itself on the
  heap with mutable results and shared objects, and a method that runs any session on the heap and refines the model.
- **The shared CPU benchmark** (`PolyProtocol`, `SpeedFit`, `CpuScale`). A transition system of any number of
  processes over one Redis key, with lost races, exceptions, crashes and key expiry; the least-squares line they
  share; and the scale and quota computed from it.
- **The face detector's scheduler** (`Detector`). A bounded priority queue, per-camera counters that feed back into
  priorities, stale frames, and the latest detection per camera.
- **The topology compiler** (`Topologies`, `ComposeSpec`, `ComposeTheorems`, `ComposeEntries`, `Compiler`). What the definition of a
  topology is, its properties, and the compiler as it runs: deep copies of shared templates updated in place, and a
  property that extends the caller's list of brokers each time it is read.

`Collections` holds the sequence combinators they share. `dafny verify dfyconfig.toml` verifies the project.

## Where the code does less than it seems to promise

Each of these is stated with the exact condition under which the intended property holds, or with the weakest one
found together with an input that breaks it.

- Traffic is not conserved when a join key is duplicated. A VIP belongs to a service but every task of the service
  reports it, so replicas duplicate rows (`AttributionTheorems.VolumeConserved`, `ReplicasInflateVolume`).
- `ReportBuilder` copies what it hands out so that callers cannot disturb the cache, but a deep copy of a DataFrame
  shares the Python objects in its cells. The proxy is transparent exactly for readers whose DataFrames hold no such
  objects (`CacheModel.TransparentIffFlat`).
- The Redis lock is meant to let one process benchmark at a time, but its result is not looked at. Without expiry there
  is at most one designated builder exactly when a lock precedes every second process's GET (`PolyProtocol.OneBuilderIff`,
  `TwoBuilders`).
- `build_service_traffic_figure` asks the table for `empty`, and the table is `None` when no task captured anything
  (`Traffic.HeatmapConserves`).
- The detector is meant to serve the camera with fewer processed frames first, older frames first. It does exactly when
  no difference of inverse ages outweighs the difference in counts; a frame younger than a second can wait behind a
  busier camera (`Detector.DrainLexicographicIff`, `CountDecidesIff`, `FreshFrameOvertaken`).
- Services and brokers are merged by name. Services are looked up by identity, so two service objects of one name leave a
  node on an undefined network. Of two brokers of one name only the first is kept, so a node can be on a network, and
  wait for a gateway, that nobody defines. References are closed exactly when neither happens to a node that is compiled
  (`ComposeTheorems.NetworksDefinedIff`, `NetworksClosedIff`, `DependenciesDefinedIff`, `TwoBrokersOneName`).
- Nothing refuses a node or broker named as a gateway or a host. Dependencies are acyclic exactly when no enabled host is
  overwritten by a gateway, node or broker, and nodes and brokers named as gateways form no ring
  (`ComposeTheorems.AcyclicIff`, `SelfDependencyIff`).
- A network block nested in a block of another network makes the network of an address depend on dictionary order
  (`Subnets.FindNetworkOrderFree`).

## Model

| member | source | states |
|---|---|---|
| Subnets.NestedOrDisjoint | wotemu/report/reader.py:294-305 | any two prefix blocks (section 3.1 of RFC 4632) are nested or share no address |
| Subnets.FindNetworkSound | wotemu/report/reader.py:294-305 | the lookup names the first network one of whose blocks holds the address, and misses exactly when no block does |
| Subnets.ContainsIsPrefix | wotemu/report/reader.py:303 | a block holds an address exactly when versions agree and the first bits, as many as the prefix length, are the same (section 3.1 of RFC 4632) |
| Subnets.FindNetworkOrderFree | wotemu/report/reader.py:298-305 | the lookup is the same for every iteration order exactly when no block of one network lies inside a block of another |
| AttributionTheorems.ExtendIsBlocks | wotemu/report/reader.py:204-262 | for all tables, duplicate keys included, the four joins with their renames, fills and drops emit, packet by packet and in order, every combination of matching rows and nothing else |
| AttributionTheorems.BlockSize | wotemu/report/reader.py:213-247 | a packet yields max(1,A(src))·max(1,A(dst))·max(1,V(src))·max(1,V(dst)) rows, all with the packet's own columns unchanged |
| AttributionTheorems.RowCount | wotemu/report/reader.py:213-247 | the row count is the sum of these multiplicities, and equals the packet count exactly when every packet's endpoints match at most one row of each table |
| AttributionTheorems.VolumeConserved | wotemu/report/reader.py:213-262 | total length is weighted by multiplicity, never drops, and is conserved exactly when every non-empty packet is unambiguous |
| AttributionTheorems.ExtendIsLookup | wotemu/report/reader.py:213-262 | on unambiguous packets the whole pipeline is one lookup per packet: service by address, else by VIP; network of the source, else of the destination |
| AttributionTheorems.VipTableCount | wotemu/report/reader.py:330-349 | an endpoint matches as many VIP rows as there are reports of that VIP over all tasks, records and networks |
| AttributionTheorems.VipTableMatches | wotemu/report/reader.py:330-349 | these rows are, over tasks, records and networks in order, one for each report of the VIP, with the service of the reporting record |
| AttributionTheorems.AddressTableMatches | wotemu/report/reader.py:294-328 | an endpoint matches one address row for each IPv4 report of the address outside the loopback interface, over tasks, records and interfaces in order, each with the network that the record's own prefix blocks give it |
| AttributionTheorems.AddressRowsOrderFree | wotemu/report/reader.py:298-328 | when the networks of every record are separate, the order in which records list them changes no match |
| AttributionTheorems.ReplicasInflateVolume | wotemu/report/reader.py:333-344 | once two tasks report one VIP, any packet to or from it makes the extended volume exceed the captured one, whatever the other tables |
| Names.LessIff | wotemu/report/builder.py:270-271 | the order of names: a proper prefix first, otherwise the smaller first difference |
| Names.SortedUniqueSpec | wotemu/report/builder.py:270-271 | the sorted axis holds exactly the names that occur, strictly increasing |
| Names.DictKeysSpec | wotemu/report/reader.py:357-360 | a task list with repetitions gives each task one key |
| Names.DictKeysInOrder | wotemu/report/reader.py:357-360 | keys come in the order in which the tasks first occur |
| Traffic.GetServiceTraffic | wotemu/report/reader.py:351-377 | the filter, group-by, loop and concatenation build the specified table, and none when no task captured anything |
| Traffic.TrafficTableUnique | wotemu/report/reader.py:357-377 | at most one row per task and service for any task argument, repeated names included |
| Traffic.TaskTrafficLen | wotemu/report/reader.py:362-371 | grouping by service keeps the attributed volume of a task |
| Traffic.ServiceTrafficEmpty | wotemu/report/reader.py:362-377 | the table is empty exactly when no extended row of a captured task is attributed to it |
| Traffic.GetTrafficIsCellLen | wotemu/report/builder.py:252-259 | with at most one row per cell the assertion holds and the cell is the summed length over 1024 |
| Traffic.HeatmapConserves | wotemu/report/builder.py:252-285 | for every store, task list and direction: the assertion never fails, `None` gives an attribute error exactly when nothing was captured, a figure is drawn exactly when something is attributed, and its cells times 1024 sum to exactly the attributed volume |
| Traffic.AttributedPerPacket | wotemu/report/reader.py:357-371 | the attributed volume of a task is the sum over its packets of length times the pairings that name the task and a service |
| Traffic.UnambiguousAttribution | wotemu/report/reader.py:362-366 | an unambiguous packet counts once or not at all, as its one lookup decides |
| TrafficCells.CapturedKeysAre | wotemu/report/reader.py:352-366 | the dictionary has the tasks asked for, or all when none is, that captured something, each once |
| TrafficCells.GroupIsCell | wotemu/report/reader.py:362-371 | the group of a task and service holds the length of the task's packets, each for every pairing of its endpoints whose own task and peer service are these, columns written out |
| TrafficCells.TrafficTableIs | wotemu/report/reader.py:351-377 | the table is none exactly when nothing asked for was captured, and otherwise has exactly one row for each task asked for and service it exchanged packets with, holding that volume |
| TrafficCells.CellLenIsVolume | wotemu/report/builder.py:252-259 | the rows of a task and service sum to the volume of their cell, used or not |
| TrafficCells.HeatmapCell | wotemu/report/builder.py:279-285 | each cell of the figure times 1024 is the volume of the task of its row and the service of its column, and the matrix has a row per task and a column per service |
| TrafficCells.HeatmapLabels | wotemu/report/builder.py:267-271 | the rows are the tasks asked for that exchanged something, the columns the services they exchanged it with, both in order |
| CacheModel.TransparentIffFlat | wotemu/report/builder.py:41-74 | over all sessions of calls, edits of returned results (cells added, removed, moved or shared, objects put in or changed), toggles and resets, every call answers what a direct call would, exactly when no DataFrame cell holds an object |
| CacheModel.RunFaithful | wotemu/report/builder.py:64-74 | when no DataFrame cell holds an object, a session's answers are the direct ones and the cache holds direct answers in objects that no client can reach |
| CacheModel.ProbeLeaks | wotemu/report/builder.py:44-49 | otherwise a session of a call, a change to a cell object and a second call tells proxy and direct call apart |
| CacheModel.EvaluatedOnce | wotemu/report/builder.py:51-74 | while caching is on and not reset, from any state, every call that answers reaches the reader at most once, and not at all when cached before |
| ReaderCache.ReportBuilder.CacheGet | wotemu/report/builder.py:51-57 | the cached object itself, or a miss |
| ReaderCache.ReportBuilder.CacheSet | wotemu/report/builder.py:59-62 | the two-level map, seen as one map, gains exactly this entry |
| ReaderCache.ReportBuilder.GetCopy | wotemu/report/builder.py:44-49 | a new result of equal value whose cells share no object with the original, except that a DataFrame copy shares its cell objects |
| ReaderCache.ReportBuilder.Evaluate | wotemu/report/builder.py:64-71 | a call of the reader answers a new object of the reader's value, or raises |
| ReaderCache.ReportBuilder.ReaderExec | wotemu/report/builder.py:64-74 | what is returned is a new object, what the cache gains, and that a hit evaluates nothing while an exception caches nothing |
| ReaderCache.ReportBuilder.ResetCache | wotemu/report/builder.py:116-117 | the cache is empty and nothing else changes |
| CacheSession.Session.Edit | wotemu/report/builder.py:64-74 | a client that gives one of its results new cells, taken from anywhere it can reach, changes no other result and no cache entry |
| CacheSession.Session.WriteObject | wotemu/report/builder.py:44-49 | a client that changes an object in a cell takes the model's step: exactly the results and cache entries that refer to it show the change |
| CacheSession.Session.Call | wotemu/report/builder.py:64-74 | a call on the heap does what the model's call does, sharing and new objects included |
| CacheSession.RunSession | wotemu/report/builder.py:36-74 | every session on the heap, aliasing included, gives the answers and evaluations of the model, and the direct answers for readers without cell objects |
| PolyProtocol.KeyMovesForward | wotemu/cli/limits.py:50-63 | under every interleaving, between expiries the key only moves absent, placeholder, polynomial; a late lock never replaces a polynomial |
| PolyProtocol.AbsentUntilLocked | wotemu/cli/limits.py:60-63 | without expiry the key is absent exactly until the first lock |
| PolyProtocol.PlaceholderFirst | wotemu/cli/limits.py:75-79 | without expiry no action publishes on an absent key |
| PolyProtocol.DesignatedIff | wotemu/cli/limits.py:56-63 | without expiry exactly the processes whose GET precedes every lock are designated builders |
| PolyProtocol.BuildersWereDesignated | wotemu/cli/limits.py:75-80 | in every run whoever builds found no key with its own GET |
| PolyProtocol.MeasuredByDesignated | wotemu/cli/limits.py:56-78 | every benchmark of a builder follows its own GET on an absent key, and without expiry that GET precedes the first write |
| PolyProtocol.KeyWasPublished | wotemu/cli/limits.py:50-53 | in every run the key holds only polynomials measured and published by designated builders |
| PolyProtocol.WaiterReadsPublished | wotemu/cli/limits.py:38-47 | in every run what a waiter returns was published earlier by a designated builder, and is neither the placeholder nor a constant |
| PolyProtocol.BuilderReturnsPublished | wotemu/cli/limits.py:75-80 | in every run what a designated builder returns is the polynomial it measured and published itself, and the key held it right after |
| PolyProtocol.OwnActionsDecide | wotemu/cli/limits.py:66-101 | in every run each process is where its own last action left it, given what that action saw of the key, whatever the others did since |
| PolyProtocol.ProgramOrder | wotemu/cli/limits.py:66-126 | in every run each process may take exactly the actions its program allows next: one GET; on an absent key lock, benchmark, publication; otherwise polls and sleeps until a polynomial or the timeout; the fallback after a failure or a constant of its own |
| PolyProtocol.KeyIs | wotemu/cli/limits.py:50-63 | in every run the key holds what the last publication since the last expiry wrote, and without one the placeholder exactly when a lock came since |
| PolyProtocol.PollsReturn | wotemu/cli/limits.py:93-99 | once published and until expiry every poll returns, when no builder fits a constant |
| PolyProtocol.OneBuilderIff | wotemu/cli/limits.py:60-63 | without expiry there is at most one designated builder exactly when a lock precedes every second process's GET |
| PolyProtocol.TwoBuilders | wotemu/cli/limits.py:75-80 | a run in which two processes benchmark as builders |
| PolyProtocol.WaitForPoly | wotemu/cli/limits.py:84-101 | the loop returns the first truthy polynomial read before the timeout, raises exactly when a read finds nothing and the time is up, and otherwise goes on |
| SpeedFit.FitIsBest | wotemu/topology/cpu.py:73-77 | the fitted line is the one line of least squared error whenever two measurements are at different shares |
| SpeedFit.SpreadPositive | wotemu/topology/cpu.py:76 | the normal equations then have one solution |
| SpeedFit.RisingCovariance | wotemu/topology/cpu.py:73-76 | Chebyshev's sum inequality: rising measurements have nonnegative covariance, positive exactly when some speed exceeds the first |
| SpeedFit.SlopeSign | wotemu/topology/cpu.py:73-77 | with increasing shares and speeds that never drop, the slope is never negative, and is positive exactly when the speeds are not all equal |
| SpeedFit.Dataset | wotemu/topology/cpu.py:65-70 | the origin comes first, then each evenly spaced share with its speed |
| SpeedFit.BenchmarkIsSolvable | wotemu/topology/cpu.py:65-77 | at the sampled shares, with speeds that never drop, the line can be solved for a target exactly when some speed is above zero |
| SpeedFit.BenchmarkIsBest | wotemu/topology/cpu.py:65-77 | the line of a benchmark is the one line of least squared error over the origin and its samples |
| SpeedFit.SharesAreEven | wotemu/topology/cpu.py:65-70 | the shares run from the first to the last in equal steps, each with its speed, after the origin |
| SpeedFit.NoSamples | wotemu/topology/cpu.py:65-77 | without samples the line meets the origin and counts as a constant |
| SpeedFit.ErrorOfCons | wotemu/topology/cpu.py:76 | the squared error is the sum of the squared distances of the speeds to the line |
| SpeedFit.SpeedCache.GetSpeedPoly | wotemu/topology/cpu.py:53-83 | a start that is not positive raises; a cached line is answered; a cached constant counts as missing and is measured again and stored |
| CpuScale.GetCoreScale | wotemu/topology/cpu.py:86-114 | the scale is where the line reaches the target, at least 0.01; a constant falls back to the benchmark, and a constant benchmark has no root; the warning says that one core is too slow; the caller's coefficients stay |
| CpuScale.SolvesUnique | wotemu/topology/cpu.py:101-108 | line and target determine the scale |
| CpuScale.ScaleMonotone | wotemu/topology/cpu.py:90-108 | on a rising line the scale grows with the target, and the warning means a scale above one |
| CpuScale.ScaleMeetsTarget | wotemu/topology/cpu.py:101-108 | on a rising line the speed at the scale equals the target exactly when the minimum scale does not exceed it, and the scale is the minimum otherwise |
| CpuScale.QuotaIsLargest | wotemu/cli/limits.py:136-139 | the quota is at least 1000, and above that the largest at which the speed stays within the target |
| CpuScale.QuotaWithinOneStep | wotemu/cli/limits.py:136-139 | the speed at the quota lies in (target − slope/period, target] exactly when the minimum scale does not exceed the target |
| CpuScale.UpdateLimits | wotemu/cli/limits.py:104-139 | which polynomial is used when Redis fails, times out or answers a constant, and the quota that follows |
| CpuScale.MeasuredQuota | wotemu/cli/limits.py:104-139 | from measurements that never drop to a quota within one step of any reachable target |
| Detector.DrainPermutes | wotemu/apps/detector.py:115 | draining yields exactly the queued frames |
| Detector.CountDecidesIff | wotemu/apps/detector.py:199-202 | for two ages the smaller camera count always goes first exactly when the inverse ages are less than one apart |
| Detector.DrainRises | wotemu/apps/detector.py:113-219 | with distinct priorities the queue empties in the order of priorities |
| Detector.DrainLexicographicIff | wotemu/apps/detector.py:113-219 | with positive ages and distinct priorities the queue empties by camera count at enqueue, then older first, exactly when for no two frames the difference of inverse ages reaches the difference in counts |
| Detector.DrainIsLexicographic | wotemu/apps/detector.py:113-219 | whatever the counts, it does when all inverse ages are less than one apart |
| Detector.OldFramesDrainInOrder | wotemu/apps/detector.py:199-219 | so it does when every frame was older than a second when queued |
| Detector.FreshFrameOvertaken | wotemu/apps/detector.py:199-202 | a younger frame is served after one of a busier camera |
| Detector.LatestAppend | wotemu/apps/detector.py:162-177 | keeping the last frame per camera, a new frame replaces the one of its camera and goes last |
| Detector.LatestIsLast | wotemu/apps/detector.py:162-177 | the kept frames are exactly the last of each camera, in processing order |
| Detector.LatestCameras | wotemu/apps/detector.py:162-177 | one entry per camera, for exactly the cameras seen |
| Detector.StoreNext | wotemu/apps/detector.py:162-177 | finding, popping and appending keeps the store equal to the last face-positive frame of each camera |
| Detector.Scheduler.OnNext | wotemu/apps/detector.py:199-221 | a frame is queued with the count of its camera's processed frames and its age, or refused exactly when the queue is full, or fails exactly at age zero; the invariant of the scheduler holds |
| Detector.Scheduler.Take | wotemu/apps/detector.py:113-127 | the first frame of the drain order is taken and the rest keeps its order; a frame that waited ten seconds is dropped |
| Detector.Scheduler.FindInStore | wotemu/apps/detector.py:165-167 | the first stored entry of a camera, or none |
| Detector.Scheduler.Finish | wotemu/apps/detector.py:159-177 | the frame joins the history, its camera is counted, and the store is the last positive frame per camera |
| Detector.ServedInOrder | wotemu/apps/detector.py:113-162 | from any situation, with no arrivals meanwhile and turns in time, the loop processes every queued frame in the order in which the queue drains |
| Detector.Perform | wotemu/apps/detector.py:110-221 | every event is acted on: an arrival is queued, refused or failed, an idle loop takes or drops the first frame, an ended detection is recorded |
| Detector.Run | wotemu/apps/detector.py:110-221 | in every run, arrivals during detection included, the scheduler ends in the situation its events lead to; each offered frame is queued, refused, failed, dropped, in detection or processed, exactly as often as offered; counters equal processed frames; the queue respects a positive bound; the store is the reduction of the history |
| Topologies.MakeNode | wotemu/topology/models.py:171-218 | which nodes are refused, and what the accepted ones guarantee |
| Topologies.BrokerNetwork | wotemu/topology/models.py:227-236 | there is a broker network exactly when there is a broker and no failure: the explicit one when it is given, otherwise the broker's first |
| Topologies.BrokerFailure | wotemu/topology/models.py:227-236 | an assertion error exactly when an explicit network is not among the broker's, an index error exactly when there is no explicit one and the broker has none |
| Topologies.FirstByNameCollects | wotemu/topology/models.py:421-435 | a set of named objects has distinct names, the same names as the list, and only its elements |
| Topologies.FirstByNameIsFirst | wotemu/topology/models.py:421-435 | of equal elements the first is kept, and the kept ones keep their order |
| Topologies.ExplicitBrokersKept | wotemu/topology/models.py:422-425 | an explicit broker is kept before a node's broker of its name |
| Topologies.NodeNetworksKept | wotemu/topology/models.py:428-431 | a network that a node lists is kept before one of its name that only a broker has |
| Topologies.ServiceNodesAre | wotemu/topology/models.py:437-438 | the nodes of a service are those that hold this very object |
| Topologies.GrownIs | wotemu/topology/models.py:421-431 | however often `brokers` was read, the sets of brokers and networks are the same |
| Topologies.GrownLength | wotemu/topology/models.py:422-425 | a non-empty explicit list grows by the brokers of all nodes each time, an empty one never |
| Compiler.NewTopology | wotemu/topology/models.py:393-403 | the comparison of set sizes accepts exactly distinct node names with no service named as a node |
| Compiler.ServiceDict.DeepCopy | wotemu/topology/compose.py:132 | a new dict of equal content with an environment and labels of its own |
| Compiler.Topology.Brokers | wotemu/topology/models.py:421-425 | the set of explicit and node brokers; the explicit list is extended in place unless it is empty |
| Compiler.Topology.Networks | wotemu/topology/models.py:427-431 | the networks of nodes and brokers, with one more extension of the list |
| Compiler.Topology.MergeConfig | wotemu/topology/compose.py:98-107 | the environment gains every configuration entry that has a value, and nothing else of the service changes |
| Compiler.Topology.ProxyDict | wotemu/topology/compose.py:25-117 | a copy of the proxy template on all networks of the topology |
| Compiler.Topology.RedisDict | wotemu/topology/compose.py:43-128 | a copy of the Redis template on all networks of the topology, with its port |
| Compiler.Topology.GenericDict | wotemu/topology/compose.py:131-166 | a service is on one private network per node that holds it, its variables and labels added to the base ones, with its restart policy and mode |
| Compiler.Topology.GatewayDict | wotemu/topology/compose.py:169-192 | a copy of the gateway template on its network, depending on the enabled hosts, with the topology configuration |
| Compiler.Topology.BrokerDict | wotemu/topology/compose.py:201-226 | a copy of the broker template on the broker's networks, depending on their gateways and the enabled hosts, with the topology configuration |
| Compiler.Topology.NodeDict | wotemu/topology/compose.py:229-314 | a node is on its networks, its private service networks and its broker network, depends on their gateways and the hosts, carries its broker host, speed, resources and replicas, and fails exactly as the lookup of its broker network does |
| Compiler.Topology.ServiceNetworkDicts | wotemu/topology/compose.py:317-326 | one network per node that holds the service |
| Compiler.Topology.ToComposeDict | wotemu/topology/compose.py:329-366 | the specified definition in dicts that are all new, so templates and earlier results stay; it fails exactly with the first failure among the nodes; the list of brokers was read three times and once more per enabled host |
| ComposeSpec.MapOfIs | wotemu/topology/compose.py:332-350 | updating a dict keeps every key written and only values written |
| ComposeSpec.NetworkKeys | wotemu/topology/compose.py:352-358 | the defined networks are those of the topology and the private ones of the kept services |
| ComposeTheorems.NetworksDefinedIff | wotemu/topology/compose.py:257-358 | every network a compiled service lists is defined, exactly when the broker network and the private service networks of every node that no broker overwrites are among the topology networks and the private networks of kept services |
| ComposeTheorems.NetworksClosed | wotemu/topology/compose.py:329-366 | so it is when services of one name are one object and brokers of one name agree on networks, whatever other names clash |
| ComposeTheorems.NetworksClosedIff | wotemu/topology/models.py:421-438 | with well-separated names it is so exactly when services of one name are one object and every broker network of a node is a topology network or has the name of a private one |
| ComposeTheorems.StrayService | wotemu/topology/models.py:437-438 | a node holding an object that the service set did not keep lists an undefined network |
| ComposeTheorems.CompiledNames | wotemu/topology/compose.py:332-350 | the compiled services are exactly the enabled hosts, the gateways, and the names of services, nodes and brokers |
| ComposeTheorems.DependenciesAre | wotemu/topology/compose.py:169-287 | what every compiled name depends on, overwritten entries included: brokers and nodes on the gateways of their networks and the hosts, gateways on the hosts, all else on nothing |
| ComposeTheorems.DependenciesDefinedIff | wotemu/topology/compose.py:201-287 | every dependency is a compiled service exactly when, for every node that no broker overwrites, the gateway of its broker network is one of the declared names |
| ComposeTheorems.DependenciesClosed | wotemu/topology/compose.py:169-287 | so it is when brokers of one name agree on networks, whichever hosts are enabled and whatever entries were overwritten |
| ComposeTheorems.TwoBrokersOneName | wotemu/topology/models.py:393-425 | two brokers of one name on different networks pass the constructor and leave a node on an undefined network, waiting for a gateway nobody defines, or for itself when it is named so |
| ComposeTheorems.AcyclicIff | wotemu/topology/compose.py:169-350 | no chain of dependencies returns to its start, exactly when no enabled host is overwritten by a gateway, node or broker and no ring of nodes and brokers is named by the gateways of each other's networks |
| ComposeTheorems.WellNamedAcyclicIff | wotemu/topology/compose.py:169-350 | with pairwise distinct service names only such a ring closes a cycle |
| ComposeTheorems.WellNamedAcyclic | wotemu/topology/compose.py:169-350 | with pairwise distinct service names and brokers of one name that agree on networks there is no cycle |
| ComposeTheorems.ChainsAreShort | wotemu/topology/compose.py:169-287 | when the layers are apart no chain has more than three services: a broker or node, a gateway, a host |
| ComposeTheorems.WellNamedLayersIff | wotemu/topology/models.py:393-403 | with pairwise distinct service names the layers are apart exactly when no host, node or broker is named as the gateway of a node's broker network |
| ComposeTheorems.SelfDependencyIff | wotemu/topology/compose.py:169-287 | a compiled service depends on itself exactly when it is a broker or node named as an enabled host or as the gateway of one of its networks, or a gateway named as an enabled host |
| ComposeTheorems.ConfigReaches | wotemu/topology/compose.py:98-107 | every node and broker carries every configuration entry, over anything it sets itself |
| ComposeEntries.CompiledConfiguration | wotemu/topology/models.py:330-413 | every compiled node and broker, and every gateway not overwritten, has the URL of the built-in or the given Redis, the URL of the Docker proxy and every port that has a value |
| ComposeEntries.CompiledTaskVariables | wotemu/topology/compose.py:48-83 | they also have the four task variables, unless the configuration has such variables |
| ComposeEntries.ServiceTaskVariables | wotemu/topology/compose.py:48-59 | so has a service that does not set them itself |
| ComposeEntries.CompiledNodeNetworks | wotemu/topology/compose.py:257-286 | a compiled node is on exactly its networks, a private one for each service it holds, and the network it reaches its broker through |
| ComposeEntries.CompiledNodeDependencies | wotemu/topology/compose.py:265-287 | it depends on exactly the gateways of its networks and of its broker network and the enabled hosts |
| ComposeEntries.CompiledNodeEnvironment | wotemu/topology/compose.py:275-307 | it finds its broker at the broker's name on that network and is given its target speed, unless the configuration has such variables |
| ComposeEntries.CompiledNodeRest | wotemu/topology/compose.py:229-314 | image, command, labels, volumes, replicas and resources of a compiled node, written out |
| ComposeEntries.ResourcesAre | wotemu/topology/compose.py:229-254 | nothing when no limit or reservation is set, and otherwise one entry for each that is |
| ComposeEntries.CompiledGateway | wotemu/topology/compose.py:61-192 | a gateway not overwritten, written out: its network, command, labels and the enabled hosts it depends on |
| ComposeEntries.CompiledBroker | wotemu/topology/compose.py:69-226 | a compiled broker, written out |
| ComposeEntries.CompiledService | wotemu/topology/compose.py:131-166 | a compiled service, written out: its variables and labels over the base ones, restart policy and mode, and one private network per node that holds it |
| ComposeEntries.CompiledHosts | wotemu/topology/compose.py:25-128 | the Docker proxy and Redis, enabled and not overwritten, written out |
| ComposeEntries.CompiledNetworks | wotemu/topology/compose.py:85-95 | every defined network is an attachable overlay under its own name, labelled private exactly when a kept service has it |
| ComposeTheorems.LastEntriesWin | wotemu/topology/compose.py:346-350 | a broker's definition, or a node's no broker is named as, is the one that stands |
| ComposeTheorems.OrderIrrelevant | wotemu/topology/models.py:421-438 | any iteration order of the sets gives the same definition when equal names mean equal values |
| ComposeTheorems.CompileAgain | wotemu/topology/compose.py:329-365 | after any number of earlier reads of `brokers` the definition is the same |

## Left out

- Rounding: floats are exact reals in priorities, the fit, the scale and the quota.
- pandas, numpy and netaddr internals: left merge, group-sum, `polyfit`, `roots` and prefix membership have their
  mathematical meaning; addresses are parsed by a function parameter; empty address and VIP tables, on which `set_index`
  raises, are treated as tables without rows.
- Passing a DataFrame as `df_address` or `df_vip`: its truth value raises; only the tables fetched by default are modelled.
- The proxy under concurrent calls: two overlapping misses would both evaluate. Calls are sequential here. Arguments
  that cannot be hashed, objects nested more than one level inside results, and clients that turn a result into one of
  another kind are left out.
- Redis, Docker and sysbench themselves: a Redis command is one atomic step on one key, measured speeds are inputs.
- Detector ties: equal priorities make the queue compare dictionaries, which raises; here either frame may go first. Pan-tilt-zoom
  control with its locks, metrics, and detection that raises are left out.
- `args_compose` merging, the image override variable, name underscoring and YAML: external libraries or arbitrary user data.
- Argument checks of node resources, applications and network conditions; a restart policy or mode lacking its entry.
- `Node.link_service`: a topology is compiled with the services its nodes hold at that moment.
- Order within Compose lists: networks and dependencies of a service are compared as sets; a Python set is a list that
  keeps the first of equal elements, and `OrderIrrelevant` covers every other order.
- Plotting, camera and MQTT plumbing, monitors, command-line wiring and the MongoDB historian: they would add only easy members.
