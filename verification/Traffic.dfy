/** Task-to-service traffic: the grouped table (`get_service_traffic_df` in wotemu/report/reader.py)
    and the heatmap drawn from it (`_get_traffic` and `build_service_traffic_figure` in
    wotemu/report/builder.py). */
module Traffic {
  import opened Collections
  import opened Names
  import opened Attribution
  import opened AttributionTheorems

  datatype TrafficRow = TrafficRow(task: string, service: string, len: int)

  /** What the reader finds in the store: the packets of every task that has packet keys, the task
      names, and the two tables packets are joined with. */
  datatype Store = Store(packets: map<string, seq<Packet>>, taskNames: seq<string>,
                         addresses: seq<AddressRow>, vips: seq<VipRow>)

  datatype Heatmap =
    | Drawn(services: seq<string>, tasks: seq<string>, kilobytes: seq<seq<real>>)
    | NoData
    | AttributeError  // the traffic table is None and has no attribute `empty`
    | AssertionError  // more than one row for a cell

  /** Inbound traffic is keyed by the source task and the destination service, outbound the reverse. */
  function OwnTask(r: ExtendedRow, inbound: bool): Option<string> { if inbound then r.srcTask else r.dstTask }

  function PeerService(r: ExtendedRow, inbound: bool): Option<string> { if inbound then r.dstService else r.srcService }

  predicate Attributed(r: ExtendedRow, task: string, inbound: bool) {
    OwnTask(r, inbound) == Some(task) && PeerService(r, inbound).Some?
  }

  function Select(df: seq<ExtendedRow>, task: string, inbound: bool): (rows: seq<ExtendedRow>)
    ensures forall r | r in rows :: Attributed(r, task, inbound)
  {
    if df == [] then []
    else (if Attributed(df[0], task, inbound) then [df[0]] else []) + Select(df[1..], task, inbound)
  }

  function Peers(rows: seq<ExtendedRow>, inbound: bool): (names: seq<string>)
    requires forall r | r in rows :: PeerService(r, inbound).Some?
    ensures |names| == |rows| && forall i | 0 <= i < |rows| :: names[i] == PeerService(rows[i], inbound).value
  {
    seq(|rows|, i requires 0 <= i < |rows| => PeerService(rows[i], inbound).value)
  }

  function GroupLen(rows: seq<ExtendedRow>, inbound: bool, service: string): int {
    Sum(rows, (r: ExtendedRow) => if PeerService(r, inbound) == Some(service) then r.packet.len else 0)
  }

  /** `df.groupby(col_service)["len"].sum()`: one pair per service, services in order. */
  function GroupByService(rows: seq<ExtendedRow>, inbound: bool): (groups: seq<(string, int)>)
    requires forall r | r in rows :: PeerService(r, inbound).Some?
    ensures |groups| == |SortedUnique(Peers(rows, inbound))|
  {
    var services := SortedUnique(Peers(rows, inbound));
    seq(|services|, i requires 0 <= i < |services| => (services[i], GroupLen(rows, inbound, services[i])))
  }

  /** `df[col_task] = task` on a grouped table. */
  function Stamp(groups: seq<(string, int)>, task: string): (rows: seq<TrafficRow>)
    ensures |rows| == |groups|
  {
    seq(|groups|, i requires 0 <= i < |groups| => TrafficRow(task, groups[i].0, groups[i].1))
  }

  /** `get_packet_df(task, extended=True)` for a task with packet keys. */
  function ExtendedPackets(store: Store, task: string): seq<ExtendedRow>
    requires task in store.packets
  {
    Extend(store.packets[task], store.addresses, store.vips)
  }

  /** The tasks that end up in the dictionary: the argument, or all tasks when it is empty, without
      repetitions and without the tasks that captured nothing. */
  function CapturedKeys(store: Store, tasks: seq<string>): (keys: seq<string>) {
    Keep(DictKeys(if tasks != [] then tasks else store.taskNames), store)
  }

  function Keep(names: seq<string>, store: Store): (keys: seq<string>)
    ensures forall k :: k in keys <==> k in names && k in store.packets
  {
    if names == [] then []
    else (if names[0] in store.packets then [names[0]] else []) + Keep(names[1..], store)
  }

  function TaskTraffic(store: Store, inbound: bool, task: string): seq<TrafficRow> {
    if task !in store.packets then []
    else Stamp(GroupByService(Select(ExtendedPackets(store, task), task, inbound), inbound), task)
  }

  /** The table `get_service_traffic_df` answers; none when no task captured anything. */
  function ServiceTraffic(store: Store, tasks: seq<string>, inbound: bool): Option<seq<TrafficRow>> {
    var keys := CapturedKeys(store, tasks);
    if keys == [] then None else Some(Tables(store, inbound, keys))
  }

  function Tables(store: Store, inbound: bool, keys: seq<string>): seq<TrafficRow> {
    FlatMap(keys, (t: string) => TaskTraffic(store, inbound, t))
  }

  lemma NoTables(store: Store, inbound: bool, keys: seq<string>)
    ensures Tables(store, inbound, keys[..0]) == []
  {
  }

  lemma NextTable(store: Store, inbound: bool, keys: seq<string>, i: nat)
    requires i < |keys|
    ensures Tables(store, inbound, keys[..i + 1]) == Tables(store, inbound, keys[..i]) + TaskTraffic(store, inbound, keys[i])
  {
    var traffic := (t: string) => TaskTraffic(store, inbound, t);
    hide TaskTraffic;
    assert keys[..i + 1] == keys[..i] + [keys[i]];
    FlatMapConcat(keys[..i], [keys[i]], traffic);
    FlatMapOne(keys[i], traffic);
  }

  method GetServiceTraffic(store: Store, tasks: seq<string>, inbound: bool) returns (df: Option<seq<TrafficRow>>)
    ensures df == ServiceTraffic(store, tasks, inbound)
  {
    hide ExtendedPackets, Select, GroupByService, Stamp, FlatMap, DictKeys, Keep;
    var keys := CapturedKeys(store, tasks);
    NoTables(store, inbound, keys);
    var rows := [];
    for i := 0 to |keys|
      invariant rows == Tables(store, inbound, keys[..i])
    {
      var task := keys[i];
      var own := Select(ExtendedPackets(store, task), task, inbound);
      var groups := GroupByService(own, inbound);
      rows := rows + Stamp(groups, task);
      NextTable(store, inbound, keys, i);
    }
    assert keys[..|keys|] == keys;
    df := if |keys| > 0 then Some(rows) else None;
  }

  /********** The heatmap **********/

  function Where(df: seq<TrafficRow>, service: string, task: string): seq<TrafficRow> {
    if df == [] then []
    else (if df[0].service == service && df[0].task == task then [df[0]] else []) + Where(df[1..], service, task)
  }

  /** `_get_traffic`: kilobytes of a cell; none when its assertion fails. */
  function GetTraffic(df: seq<TrafficRow>, service: string, task: string): Option<real> {
    var rows := Where(df, service, task);
    if |rows| > 1 then None
    else if |rows| == 0 then Some(0.0)
    else Some(rows[0].len as real / 1024.0)
  }

  predicate CellsDefined(df: seq<TrafficRow>, services: seq<string>, tasks: seq<string>) {
    forall t, s | t in tasks && s in services :: GetTraffic(df, s, t).Some?
  }

  function Cells(df: seq<TrafficRow>, services: seq<string>, task: string): (row: seq<real>)
    requires forall s | s in services :: GetTraffic(df, s, task).Some?
  {
    seq(|services|, i requires 0 <= i < |services| => GetTraffic(df, services[i], task).value)
  }

  function Matrix(df: seq<TrafficRow>, services: seq<string>, tasks: seq<string>): (z: seq<seq<real>>)
    requires CellsDefined(df, services, tasks)
  {
    seq(|tasks|, i requires 0 <= i < |tasks| => Cells(df, services, tasks[i]))
  }

  function ServiceColumn(df: seq<TrafficRow>): seq<string> { seq(|df|, i requires 0 <= i < |df| => df[i].service) }

  function TaskColumn(df: seq<TrafficRow>): seq<string> { seq(|df|, i requires 0 <= i < |df| => df[i].task) }

  /** The data of `build_service_traffic_figure`. */
  function BuildHeatmap(df: Option<seq<TrafficRow>>): (h: Heatmap) {
    if df.None? then AttributeError
    else if df.value == [] then NoData
    else
      var services := SortedUnique(ServiceColumn(df.value));
      var tasks := SortedUnique(TaskColumn(df.value));
      if CellsDefined(df.value, services, tasks)
      then Drawn(services, tasks, Matrix(df.value, services, tasks))
      else AssertionError
  }

  function SumReal(xs: seq<real>): real { if xs == [] then 0.0 else xs[0] + SumReal(xs[1..]) }

  function Total(z: seq<seq<real>>): real { if z == [] then 0.0 else SumReal(z[0]) + Total(z[1..]) }

  /********** At most one row per cell **********/

  ghost predicate OneRowPerCell(df: seq<TrafficRow>) {
    forall i, j | 0 <= i < j < |df| :: !(df[i].task == df[j].task && df[i].service == df[j].service)
  }

  lemma TaskTrafficShape(store: Store, inbound: bool, task: string)
    ensures OneRowPerCell(TaskTraffic(store, inbound, task))
    ensures forall r | r in TaskTraffic(store, inbound, task) :: r.task == task
  {
    if task in store.packets {
      SortedUniqueSpec(Peers(Select(ExtendedPackets(store, task), task, inbound), inbound));
    }
  }

  lemma {:induction false} TablesShape(store: Store, inbound: bool, keys: seq<string>)
    requires NoDup(keys)
    ensures OneRowPerCell(Tables(store, inbound, keys))
    ensures forall r | r in Tables(store, inbound, keys) :: r.task in keys
  {
    if keys != [] {
      TaskTrafficShape(store, inbound, keys[0]);
      TablesShape(store, inbound, keys[1..]);
    }
  }

  lemma {:induction false} KeepNoDup(names: seq<string>, store: Store)
    requires NoDup(names)
    ensures NoDup(Keep(names, store))
  {
    if names != [] {
      KeepNoDup(names[1..], store);
      assert names[0] !in names[1..];
    }
  }

  lemma CapturedKeysNoDup(store: Store, tasks: seq<string>)
    ensures NoDup(CapturedKeys(store, tasks))
  {
    var names := if tasks != [] then tasks else store.taskNames;
    DictKeysSpec(names);
    KeepNoDup(DictKeys(names), store);
  }

  /** The traffic table has at most one row per task and service, whatever task list was asked for. */
  lemma TrafficTableUnique(store: Store, tasks: seq<string>, inbound: bool)
    ensures ServiceTraffic(store, tasks, inbound).Some? ==>
              OneRowPerCell(ServiceTraffic(store, tasks, inbound).value)
  {
    CapturedKeysNoDup(store, tasks);
    TablesShape(store, inbound, CapturedKeys(store, tasks));
  }

  lemma {:induction false} WhereAtMostOne(df: seq<TrafficRow>, service: string, task: string)
    requires OneRowPerCell(df)
    ensures |Where(df, service, task)| <= 1
    ensures Where(df, service, task) == [] <==> forall r | r in df :: !(r.service == service && r.task == task)
  {
    if df != [] {
      WhereAtMostOne(df[1..], service, task);
      if df[0].service == service && df[0].task == task {
        assert forall r | r in df[1..] :: !(r.service == service && r.task == task);
      }
    }
  }

  /********** Nothing is lost or counted twice **********/

  function CellLen(df: seq<TrafficRow>, service: string, task: string): int {
    Sum(df, (r: TrafficRow) => if r.task == task && r.service == service then r.len else 0)
  }

  lemma {:induction false} CellLenIsWhere(df: seq<TrafficRow>, service: string, task: string)
    ensures CellLen(df, service, task) == Sum(Where(df, service, task), (r: TrafficRow) => r.len)
  {
    if df != [] {
      CellLenIsWhere(df[1..], service, task);
      var len := (r: TrafficRow) => r.len;
      SumConcat(if df[0].service == service && df[0].task == task then [df[0]] else [],
                Where(df[1..], service, task), len);
    }
  }

  lemma GetTrafficIsCellLen(df: seq<TrafficRow>, service: string, task: string)
    requires OneRowPerCell(df)
    ensures GetTraffic(df, service, task) == Some(CellLen(df, service, task) as real / 1024.0)
  {
    WhereAtMostOne(df, service, task);
    CellLenIsWhere(df, service, task);
    var rows := Where(df, service, task);
    if rows != [] {
      assert rows == [rows[0]];
    }
  }

  lemma {:induction false} RowTotal(df: seq<TrafficRow>, services: seq<string>, task: string)
    requires OneRowPerCell(df)
    requires forall s | s in services :: GetTraffic(df, s, task).Some?
    ensures SumReal(Cells(df, services, task)) * 1024.0 == Sum(services, (s: string) => CellLen(df, s, task)) as real
  {
    if services != [] {
      GetTrafficIsCellLen(df, services[0], task);
      RowTotal(df, services[1..], task);
      assert Cells(df, services, task)[1..] == Cells(df, services[1..], task);
    }
  }

  lemma {:induction false} MatrixTotal(df: seq<TrafficRow>, services: seq<string>, tasks: seq<string>, perTask: string -> int)
    requires OneRowPerCell(df) && CellsDefined(df, services, tasks)
    requires forall t | t in tasks :: perTask(t) == Sum(services, (s: string) => CellLen(df, s, t))
    ensures Total(Matrix(df, services, tasks)) * 1024.0 == Sum(tasks, perTask) as real
  {
    if tasks != [] {
      RowTotal(df, services, tasks[0]);
      MatrixTotal(df, services, tasks[1..], perTask);
      assert Matrix(df, services, tasks)[1..] == Matrix(df, services, tasks[1..]);
    }
  }

  lemma TableTotal(df: seq<TrafficRow>, services: seq<string>, tasks: seq<string>, perTask: string -> int)
    requires NoDup(services) && NoDup(tasks)
    requires forall r | r in df :: r.service in services && r.task in tasks
    requires forall t | t in tasks :: perTask(t) == Sum(services, (s: string) => CellLen(df, s, t))
    ensures Sum(tasks, perTask) == Sum(df, (r: TrafficRow) => r.len)
  {
    var len := (r: TrafficRow) => r.len;
    var byTask, byService := (r: TrafficRow) => r.task, (r: TrafficRow) => r.service;
    forall t | t in tasks
      ensures perTask(t) == GroupSum(df, byTask, t, len)
    {
      var ofTask := (r: TrafficRow) => if r.task == t then len(r) else 0;
      var cell := (s: string) => CellLen(df, s, t);
      forall s | s in services
        ensures cell(s) == GroupSum(df, byService, s, ofTask)
      {
        GroupSumIs(df, byService, s, ofTask, (r: TrafficRow) => if r.task == t && r.service == s then r.len else 0);
      }
      SumByKey(df, services, byService, ofTask, cell, ofTask);
      GroupSumIs(df, byTask, t, len, ofTask);
      SumCong(services, cell, (s: string) => CellLen(df, s, t));
    }
    SumByKey(df, tasks, byTask, len, perTask, len);
  }

  /** Volume of the rows of one task that the report attributes to it. */
  function AttributedLen(df: seq<ExtendedRow>, task: string, inbound: bool): int {
    Sum(df, (r: ExtendedRow) => if Attributed(r, task, inbound) then r.packet.len else 0)
  }

  lemma {:induction false} SelectLen(df: seq<ExtendedRow>, task: string, inbound: bool)
    ensures Sum(Select(df, task, inbound), RowLen) == AttributedLen(df, task, inbound)
  {
    if df != [] {
      SelectLen(df[1..], task, inbound);
      SumConcat(if Attributed(df[0], task, inbound) then [df[0]] else [], Select(df[1..], task, inbound), RowLen);
    }
  }

  function TrafficLen(r: TrafficRow): int { r.len }

  lemma {:induction false} StampLen(services: seq<string>, rows: seq<ExtendedRow>, inbound: bool, task: string)
    ensures Sum(seq(|services|, i requires 0 <= i < |services| =>
                      TrafficRow(task, services[i], GroupLen(rows, inbound, services[i]))), TrafficLen)
         == Sum(services, (s: string) => GroupLen(rows, inbound, s))
  {
    if services != [] {
      StampLen(services[1..], rows, inbound, task);
      assert seq(|services|, i requires 0 <= i < |services| =>
                   TrafficRow(task, services[i], GroupLen(rows, inbound, services[i])))[1..]
          == seq(|services[1..]|, i requires 0 <= i < |services[1..]| =>
                   TrafficRow(task, services[1..][i], GroupLen(rows, inbound, services[1..][i])));
    }
  }

  lemma GroupsLen(rows: seq<ExtendedRow>, inbound: bool, services: seq<string>)
    requires forall r | r in rows :: PeerService(r, inbound).Some?
    requires services == SortedUnique(Peers(rows, inbound))
    ensures Sum(services, (s: string) => GroupLen(rows, inbound, s)) == Sum(rows, RowLen)
  {
    SortedUniqueSpec(Peers(rows, inbound));
    var key := (r: ExtendedRow) => if PeerService(r, inbound).Some? then PeerService(r, inbound).value else "";
    var group := (s: string) => GroupLen(rows, inbound, s);
    forall s | s in services
      ensures group(s) == GroupSum(rows, key, s, RowLen)
    {
      GroupSumIs(rows, key, s, RowLen,
                 (r: ExtendedRow) => if PeerService(r, inbound) == Some(s) then r.packet.len else 0);
    }
    forall r | r in rows ensures key(r) in services {
      var i :| 0 <= i < |rows| && rows[i] == r;
      assert Peers(rows, inbound)[i] == key(r);
    }
    SumByKey(rows, services, key, RowLen, group, RowLen);
  }

  /** Grouping by service keeps the attributed volume of a task. */
  lemma TaskTrafficLen(store: Store, inbound: bool, task: string)
    requires task in store.packets
    ensures Sum(TaskTraffic(store, inbound, task), TrafficLen)
         == AttributedLen(ExtendedPackets(store, task), task, inbound)
  {
    var rows := Select(ExtendedPackets(store, task), task, inbound);
    var services := SortedUnique(Peers(rows, inbound));
    SelectLen(ExtendedPackets(store, task), task, inbound);
    GroupsLen(rows, inbound, services);
    StampLen(services, rows, inbound, task);
    assert TaskTraffic(store, inbound, task)
        == seq(|services|, i requires 0 <= i < |services| =>
                 TrafficRow(task, services[i], GroupLen(rows, inbound, services[i])));
  }

  /** The volume the report should show: over the tasks with captures, the extended rows whose own
      task is the capturing task and whose service is known. */
  function ReportedLen(store: Store, tasks: seq<string>, inbound: bool): int {
    Sum(CapturedKeys(store, tasks), (t: string) =>
      if t in store.packets then AttributedLen(ExtendedPackets(store, t), t, inbound) else 0)
  }

  lemma ServiceTrafficLen(store: Store, tasks: seq<string>, inbound: bool)
    requires ServiceTraffic(store, tasks, inbound).Some?
    ensures Sum(ServiceTraffic(store, tasks, inbound).value, TrafficLen) == ReportedLen(store, tasks, inbound)
  {
    var keys := CapturedKeys(store, tasks);
    var reported := (t: string) =>
        if t in store.packets then AttributedLen(ExtendedPackets(store, t), t, inbound) else 0;
    forall t | t in keys ensures reported(t) == Sum(TaskTraffic(store, inbound, t), TrafficLen) {
      TaskTrafficLen(store, inbound, t);
    }
    SumFlatMap(keys, (t: string) => TaskTraffic(store, inbound, t), TrafficLen, reported);
  }

  lemma TaskTrafficEmpty(store: Store, inbound: bool, task: string)
    requires task in store.packets
    ensures TaskTraffic(store, inbound, task) == [] <==>
              forall r | r in ExtendedPackets(store, task) :: !Attributed(r, task, inbound)
  {
    var rows := Select(ExtendedPackets(store, task), task, inbound);
    SelectMember(ExtendedPackets(store, task), task, inbound);
    SortedUniqueSpec(Peers(rows, inbound));
    if rows != [] {
      assert Peers(rows, inbound)[0] in SortedUnique(Peers(rows, inbound));
      assert rows[0] in ExtendedPackets(store, task);
    } else {
      assert forall r | r in ExtendedPackets(store, task) :: r !in rows;
    }
  }

  lemma {:induction false} SelectMember(df: seq<ExtendedRow>, task: string, inbound: bool)
    ensures forall r :: r in Select(df, task, inbound) <==> r in df && Attributed(r, task, inbound)
  {
    if df != [] {
      SelectMember(df[1..], task, inbound);
      assert forall r :: r in df <==> r == df[0] || r in df[1..];
    }
  }

  /** Something a captured task sent or received is attributed. */
  ghost predicate AnyAttributed(store: Store, tasks: seq<string>, inbound: bool) {
    exists t, r :: t in CapturedKeys(store, tasks) && t in store.packets &&
                   r in ExtendedPackets(store, t) && Attributed(r, t, inbound)
  }

  lemma ServiceTrafficEmpty(store: Store, tasks: seq<string>, inbound: bool)
    requires ServiceTraffic(store, tasks, inbound).Some?
    ensures ServiceTraffic(store, tasks, inbound).value != [] <==> AnyAttributed(store, tasks, inbound)
  {
    var keys := CapturedKeys(store, tasks);
    var f := (t: string) => TaskTraffic(store, inbound, t);
    if ServiceTraffic(store, tasks, inbound).value != [] {
      var y := FlatMap(keys, f)[0];
      FlatMapMember(keys, f, y);
      var t :| t in keys && y in f(t);
      TaskTrafficEmpty(store, inbound, t);
    }
    if t, r :| t in keys && t in store.packets && r in ExtendedPackets(store, t) && Attributed(r, t, inbound) {
      TaskTrafficEmpty(store, inbound, t);
      FlatMapMember(keys, f, f(t)[0]);
    }
  }

  /** The heatmap of any store: never an assertion failure; an attribute error exactly when no task
      captured anything; no figure exactly when nothing is attributed; and otherwise its cells add up,
      in units of 1024, to exactly the reported volume. */
  lemma HeatmapConserves(store: Store, tasks: seq<string>, inbound: bool)
    ensures var h := BuildHeatmap(ServiceTraffic(store, tasks, inbound));
            && !h.AssertionError?
            && (h.AttributeError? <==> CapturedKeys(store, tasks) == [])
            && (h.Drawn? <==> AnyAttributed(store, tasks, inbound))
            && (h.Drawn? ==> Increasing(h.services) && Increasing(h.tasks)
                             && Total(h.kilobytes) * 1024.0 == ReportedLen(store, tasks, inbound) as real)
  {
    var traffic := ServiceTraffic(store, tasks, inbound);
    if traffic.Some? {
      TrafficTableUnique(store, tasks, inbound);
      ServiceTrafficEmpty(store, tasks, inbound);
      var df := traffic.value;
      var services, names := SortedUnique(ServiceColumn(df)), SortedUnique(TaskColumn(df));
      SortedUniqueSpec(ServiceColumn(df));
      SortedUniqueSpec(TaskColumn(df));
      forall t, s | t in names && s in services ensures GetTraffic(df, s, t).Some? {
        GetTrafficIsCellLen(df, s, t);
      }
      forall r | r in df ensures r.service in services && r.task in names {
        var i :| 0 <= i < |df| && df[i] == r;
        assert ServiceColumn(df)[i] == r.service && TaskColumn(df)[i] == r.task;
      }
      var perTask := (t: string) => Sum(services, (s: string) => CellLen(df, s, t));
      MatrixTotal(df, services, names, perTask);
      TableTotal(df, services, names, perTask);
      SumCong(df, TrafficLen, (r: TrafficRow) => r.len);
      ServiceTrafficLen(store, tasks, inbound);
    } else {
      assert CapturedKeys(store, tasks) == [];
    }
  }

  /********** From packets to cells **********/

  /** How many of a packet's extended rows count for a task. */
  function AttributedRows(store: Store, p: Packet, task: string, inbound: bool): nat {
    |Select(Block(p, store.addresses, store.vips), task, inbound)|
  }

  lemma {:induction false} AttributedLenConcat(xs: seq<ExtendedRow>, task: string, inbound: bool, p: Packet)
    requires AllOf(xs, p)
    ensures AttributedLen(xs, task, inbound) == p.len * |Select(xs, task, inbound)|
  {
    SelectLen(xs, task, inbound);
    SelectMember(xs, task, inbound);
    SumUniform(Select(xs, task, inbound), RowLen, p.len);
    assert p.len * |Select(xs, task, inbound)| == |Select(xs, task, inbound)| * p.len;
  }

  /** An unambiguous packet counts once if its one lookup does, and otherwise not at all. */
  lemma UnambiguousAttribution(store: Store, p: Packet, task: string, inbound: bool)
    requires Unambiguous(p, store.addresses, store.vips)
    ensures AttributedRows(store, p, task, inbound) ==
            if Attributed(Lookup(p, store.addresses, store.vips), task, inbound) then 1 else 0
  {
    hide Attributed, Lookup, Unambiguous, Block;
    UnambiguousBlock(p, store.addresses, store.vips);
    var row := Lookup(p, store.addresses, store.vips);
    assert Select([], task, inbound) == [];
    assert [row][1..] == [];
  }

  /** The attributed volume of a task, packet by packet: each packet counts once for every pairing of
      its endpoints that names the task and a service. */
  lemma AttributedPerPacket(store: Store, task: string, inbound: bool)
    requires task in store.packets
    ensures AttributedLen(ExtendedPackets(store, task), task, inbound)
         == Sum(store.packets[task], (p: Packet) => p.len * AttributedRows(store, p, task, inbound))
  {
    hide Attributed, Extend, Block;
    var packets := store.packets[task];
    var w := (r: ExtendedRow) => if Attributed(r, task, inbound) then r.packet.len else 0;
    var v := (p: Packet) => p.len * AttributedRows(store, p, task, inbound);
    var block := (p: Packet) => Block(p, store.addresses, store.vips);
    forall p: Packet ensures v(p) == Sum(block(p), w) {
      BlockSize(p, store.addresses, store.vips);
      AttributedLenConcat(block(p), task, inbound, p);
    }
    ExtendIsBlocks(packets, store.addresses, store.vips);
    SumFlatMap(packets, block, w, v);
  }
}
