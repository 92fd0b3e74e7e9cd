/** What a single cell of the traffic table and of the heatmap holds, read from the captured packets
    (wotemu/report/reader.py and wotemu/report/builder.py). */
module TrafficCells {
  import opened Collections
  import opened Names
  import opened Attribution
  import opened AttributionTheorems
  import opened Traffic

  /** The tasks asked for: the argument, or all tasks when it is empty. */
  predicate Asked(store: Store, tasks: seq<string>, task: string) {
    if tasks == [] then task in store.taskNames else task in tasks
  }

  /** The dictionary has the tasks asked for that captured something, each once. */
  lemma CapturedKeysAre(store: Store, tasks: seq<string>)
    ensures NoDup(CapturedKeys(store, tasks))
    ensures forall t :: t in CapturedKeys(store, tasks) <==> Asked(store, tasks, t) && t in store.packets
  {
    CapturedKeysNoDup(store, tasks);
    DictKeysSpec(if tasks != [] then tasks else store.taskNames);
  }

  /** The row belongs to the cell: sent by the task to the service, or received by the task from the service. */
  predicate Belongs(r: ExtendedRow, task: string, service: string, inbound: bool) {
    if inbound then r.srcTask == Some(task) && r.dstService == Some(service)
    else r.dstTask == Some(task) && r.srcService == Some(service)
  }

  /** How many pairings of a packet's endpoints belong to the cell. */
  function PairingsOf(store: Store, p: Packet, task: string, service: string, inbound: bool): int {
    Sum(Block(p, store.addresses, store.vips), (r: ExtendedRow) => if Belongs(r, task, service, inbound) then 1 else 0)
  }

  /** The volume of a cell: the packets the task captured, each with its length for every such pairing. */
  function CellVolume(store: Store, task: string, service: string, inbound: bool): int
    requires task in store.packets
  {
    Sum(store.packets[task], (p: Packet) => p.len * PairingsOf(store, p, task, service, inbound))
  }

  /** Some packet of the task has a pairing in the cell. */
  ghost predicate CellUsed(store: Store, task: string, service: string, inbound: bool) {
    task in store.packets && exists p, r :: p in store.packets[task] && r in Block(p, store.addresses, store.vips)
                                            && Belongs(r, task, service, inbound)
  }

  /********** One task **********/

  function LenIn(task: string, service: string, inbound: bool): ExtendedRow -> int {
    (r: ExtendedRow) => if Belongs(r, task, service, inbound) then r.packet.len else 0
  }

  lemma {:induction false} SelectGroup(df: seq<ExtendedRow>, task: string, service: string, inbound: bool)
    ensures GroupLen(Select(df, task, inbound), inbound, service) == Sum(df, LenIn(task, service, inbound))
  {
    if df != [] {
      SelectGroup(df[1..], task, service, inbound);
      SumConcat(if Attributed(df[0], task, inbound) then [df[0]] else [], Select(df[1..], task, inbound),
                (r: ExtendedRow) => if PeerService(r, inbound) == Some(service) then r.packet.len else 0);
    }
  }

  lemma {:induction false} BlockVolume(rows: seq<ExtendedRow>, p: Packet, task: string, service: string, inbound: bool)
    requires AllOf(rows, p)
    ensures Sum(rows, LenIn(task, service, inbound))
         == p.len * Sum(rows, (r: ExtendedRow) => if Belongs(r, task, service, inbound) then 1 else 0)
  {
    if rows != [] {
      assert rows[0] in rows && forall r | r in rows[1..] :: r in rows;
      BlockVolume(rows[1..], p, task, service, inbound);
    }
  }

  /** The volume of a group is the volume of its cell. */
  lemma GroupIsCell(store: Store, task: string, service: string, inbound: bool)
    requires task in store.packets
    ensures GroupLen(Select(ExtendedPackets(store, task), task, inbound), inbound, service)
         == CellVolume(store, task, service, inbound)
  {
    hide Block, Extend, Belongs, Select, GroupLen;
    var packets, w := store.packets[task], LenIn(task, service, inbound);
    var block := (p: Packet) => Block(p, store.addresses, store.vips);
    var v := (p: Packet) => p.len * PairingsOf(store, p, task, service, inbound);
    SelectGroup(ExtendedPackets(store, task), task, service, inbound);
    ExtendIsBlocks(packets, store.addresses, store.vips);
    forall p: Packet ensures v(p) == Sum(block(p), w) {
      BlockSize(p, store.addresses, store.vips);
      BlockVolume(block(p), p, task, service, inbound);
    }
    SumFlatMap(packets, block, w, v);
  }

  /** The rows of one task: its name, the service and the volume of the group, for the services it reached. */
  lemma TaskRowsAre(store: Store, task: string, inbound: bool, r: TrafficRow)
    requires task in store.packets
    ensures r in TaskTraffic(store, inbound, task) <==>
            && r.task == task && r.len == CellVolume(store, task, r.service, inbound)
            && CellUsed(store, task, r.service, inbound)
  {
    hide ExtendedPackets, Belongs, GroupLen, Select;
    var df := ExtendedPackets(store, task);
    var rows := Select(df, task, inbound);
    var services := SortedUnique(Peers(rows, inbound));
    SortedUniqueSpec(Peers(rows, inbound));
    GroupIsCell(store, task, r.service, inbound);
    PeersAre(store, task, r.service, inbound);
    var table := TaskTraffic(store, inbound, task);
    assert table == Stamp(GroupByService(rows, inbound), task);
    assert |table| == |services| && forall i | 0 <= i < |services| ::
        table[i] == TrafficRow(task, services[i], GroupLen(rows, inbound, services[i]));
    if r.service in services && r.task == task && r.len == GroupLen(rows, inbound, r.service) {
      var i :| 0 <= i < |services| && services[i] == r.service;
      assert table[i] == r;
    }
  }

  /** The services a task reached. */
  lemma PeersAre(store: Store, task: string, service: string, inbound: bool)
    requires task in store.packets
    ensures service in Peers(Select(ExtendedPackets(store, task), task, inbound), inbound) <==> CellUsed(store, task, service, inbound)
  {
    hide Block, Extend, Select;
    var df := ExtendedPackets(store, task);
    var rows := Select(df, task, inbound);
    var block := (p: Packet) => Block(p, store.addresses, store.vips);
    SelectMember(df, task, inbound);
    ExtendIsBlocks(store.packets[task], store.addresses, store.vips);
    forall r { FlatMapMember(store.packets[task], block, r); }
    if service in Peers(rows, inbound) {
      var i :| 0 <= i < |rows| && Peers(rows, inbound)[i] == service;
      assert rows[i] in df && Belongs(rows[i], task, service, inbound);
    }
    if p, r :| p in store.packets[task] && r in block(p) && Belongs(r, task, service, inbound) {
      assert r in df && r in rows;
      var i :| 0 <= i < |rows| && rows[i] == r;
      assert Peers(rows, inbound)[i] == service;
    }
  }

  /********** The whole table **********/

  /** The traffic table: none exactly when no task asked for captured anything, and otherwise one row for each
      task asked for and service it exchanged packets with, holding the volume of that cell. */
  lemma TrafficTableIs(store: Store, tasks: seq<string>, inbound: bool)
    ensures ServiceTraffic(store, tasks, inbound) == None <==> forall t | t in store.packets :: !Asked(store, tasks, t)
    ensures ServiceTraffic(store, tasks, inbound).Some? ==>
              var df := ServiceTraffic(store, tasks, inbound).value;
              && OneRowPerCell(df)
              && forall r: TrafficRow :: r in df <==>
                   && Asked(store, tasks, r.task) && r.task in store.packets && CellUsed(store, r.task, r.service, inbound)
                   && r.len == CellVolume(store, r.task, r.service, inbound)
  {
    hide CellUsed, CellVolume, TaskTraffic, Asked;
    var keys := CapturedKeys(store, tasks);
    CapturedKeysAre(store, tasks);
    TrafficTableUnique(store, tasks, inbound);
    if keys == [] {
      assert forall t | t in store.packets :: t !in keys;
    } else {
      assert keys[0] in keys;
      forall r: TrafficRow
        ensures r in Tables(store, inbound, keys) <==>
                && Asked(store, tasks, r.task) && r.task in store.packets && CellUsed(store, r.task, r.service, inbound)
                && r.len == CellVolume(store, r.task, r.service, inbound)
      {
        RowOfTables(store, inbound, keys, r);
      }
    }
  }

  lemma RowOfTables(store: Store, inbound: bool, keys: seq<string>, r: TrafficRow)
    requires forall t | t in keys :: t in store.packets
    ensures r in Tables(store, inbound, keys) <==>
            && r.task in keys && CellUsed(store, r.task, r.service, inbound)
            && r.len == CellVolume(store, r.task, r.service, inbound)
  {
    hide CellVolume, TaskTraffic;
    FlatMapMember(keys, (t: string) => TaskTraffic(store, inbound, t), r);
    forall t | t in keys { TaskRowsAre(store, t, inbound, r); }
  }

  /********** The heatmap **********/

  lemma CellLenOfRow(df: seq<TrafficRow>, r: TrafficRow)
    requires OneRowPerCell(df) && r in df
    ensures CellLen(df, r.service, r.task) == r.len
  {
    WhereAtMostOne(df, r.service, r.task);
    CellLenIsWhere(df, r.service, r.task);
    WhereHas(df, r);
    var rows := Where(df, r.service, r.task);
    assert rows == [r] && rows[1..] == [];
  }

  lemma {:induction false} WhereHas(df: seq<TrafficRow>, r: TrafficRow)
    requires r in df
    ensures r in Where(df, r.service, r.task)
  {
    if df[0] != r {
      WhereHas(df[1..], r);
    }
  }

  lemma CellLenOfNone(df: seq<TrafficRow>, task: string, service: string)
    requires forall r | r in df :: !(r.task == task && r.service == service)
    ensures CellLen(df, service, task) == 0
  {
    SumUniform(df, (r: TrafficRow) => if r.task == task && r.service == service then r.len else 0, 0);
  }

  /** A cell that nothing belongs to has no volume. */
  lemma UnusedIsEmpty(store: Store, task: string, service: string, inbound: bool)
    requires task in store.packets && !CellUsed(store, task, service, inbound)
    ensures CellVolume(store, task, service, inbound) == 0
  {
    hide Block, Belongs;
    var v := (p: Packet) => p.len * PairingsOf(store, p, task, service, inbound);
    forall p | p in store.packets[task] ensures v(p) == 0 {
      SumUniform(Block(p, store.addresses, store.vips), (r: ExtendedRow) => if Belongs(r, task, service, inbound) then 1 else 0, 0);
    }
    SumUniform(store.packets[task], v, 0);
  }

  /** The summed rows of a cell are its volume. */
  lemma CellLenIsVolume(store: Store, tasks: seq<string>, inbound: bool, task: string, service: string)
    requires ServiceTraffic(store, tasks, inbound).Some? && Asked(store, tasks, task) && task in store.packets
    ensures CellLen(ServiceTraffic(store, tasks, inbound).value, service, task) == CellVolume(store, task, service, inbound)
  {
    hide CellVolume, CellUsed, ServiceTraffic, CellLen, Asked;
    var df := ServiceTraffic(store, tasks, inbound).value;
    TrafficTableIs(store, tasks, inbound);
    if CellUsed(store, task, service, inbound) {
      var r := TrafficRow(task, service, CellVolume(store, task, service, inbound));
      CellLenOfRow(df, r);
    } else {
      UnusedIsEmpty(store, task, service, inbound);
      CellLenOfNone(df, task, service);
    }
  }

  lemma ColumnsAre(df: seq<TrafficRow>)
    ensures forall s :: s in ServiceColumn(df) <==> exists r :: r in df && r.service == s
    ensures forall t :: t in TaskColumn(df) <==> exists r :: r in df && r.task == t
  {
    forall s ensures s in ServiceColumn(df) <==> exists r :: r in df && r.service == s {
      if r :| r in df && r.service == s {
        var i :| 0 <= i < |df| && df[i] == r;
        assert ServiceColumn(df)[i] == s;
      }
    }
    forall t ensures t in TaskColumn(df) <==> exists r :: r in df && r.task == t {
      if r :| r in df && r.task == t {
        var i :| 0 <= i < |df| && df[i] == r;
        assert TaskColumn(df)[i] == t;
      }
    }
  }

  /** The cells of a drawn figure are the kilobytes of the table. */
  lemma DrawnCells(df: seq<TrafficRow>, h: Heatmap, i: nat, j: nat)
    requires OneRowPerCell(df) && h == BuildHeatmap(Some(df)) && h.Drawn? && i < |h.tasks| && j < |h.services|
    ensures |h.kilobytes| == |h.tasks| && |h.kilobytes[i]| == |h.services|
    ensures h.kilobytes[i][j] * 1024.0 == CellLen(df, h.services[j], h.tasks[i]) as real
  {
    hide CellLen, SortedUnique, GetTraffic, Where;
    GetTrafficIsCellLen(df, h.services[j], h.tasks[i]);
  }

  lemma DrawnAxes(df: seq<TrafficRow>, h: Heatmap)
    requires h == BuildHeatmap(Some(df)) && h.Drawn?
    ensures Increasing(h.services) && (forall s :: s in h.services <==> s in ServiceColumn(df))
    ensures Increasing(h.tasks) && (forall t :: t in h.tasks <==> t in TaskColumn(df))
    ensures |h.kilobytes| == |h.tasks|
  {
    hide GetTraffic;
    SortedUniqueSpec(ServiceColumn(df));
    SortedUniqueSpec(TaskColumn(df));
  }

  lemma SomeTable(store: Store, tasks: seq<string>, inbound: bool)
    requires BuildHeatmap(ServiceTraffic(store, tasks, inbound)).Drawn?
    ensures ServiceTraffic(store, tasks, inbound).Some?
  {
  }

  /** Each cell of a drawn figure is the volume of its task and service in kilobytes. */
  lemma HeatmapCell(store: Store, tasks: seq<string>, inbound: bool, i: nat, j: nat)
    requires var h := BuildHeatmap(ServiceTraffic(store, tasks, inbound));
             h.Drawn? && i < |h.tasks| && j < |h.services|
    ensures var h := BuildHeatmap(ServiceTraffic(store, tasks, inbound));
            && |h.kilobytes| == |h.tasks| && |h.kilobytes[i]| == |h.services| && h.tasks[i] in store.packets
            && h.kilobytes[i][j] * 1024.0 == CellVolume(store, h.tasks[i], h.services[j], inbound) as real
  {
    hide BuildHeatmap, ServiceTraffic, CellVolume, CellUsed, CellLen, Asked, ServiceColumn, TaskColumn;
    SomeTable(store, tasks, inbound);
    var h := BuildHeatmap(ServiceTraffic(store, tasks, inbound));
    var df := ServiceTraffic(store, tasks, inbound).value;
    DrawnAxes(df, h);
    HeatmapAxes(store, tasks, inbound);
    TrafficTableIs(store, tasks, inbound);
    DrawnCells(df, h, i, j);
    assert h.tasks[i] in TaskColumn(df);
    CellLenIsVolume(store, tasks, inbound, h.tasks[i], h.services[j]);
  }

  /** The rows of a drawn figure are the tasks asked for that exchanged something, its columns the services they
      exchanged it with, both in order. */
  lemma HeatmapLabels(store: Store, tasks: seq<string>, inbound: bool)
    requires BuildHeatmap(ServiceTraffic(store, tasks, inbound)).Drawn?
    ensures var h := BuildHeatmap(ServiceTraffic(store, tasks, inbound));
            && Increasing(h.tasks) && Increasing(h.services)
            && (forall t :: t in h.tasks <==> Asked(store, tasks, t) && exists s :: CellUsed(store, t, s, inbound))
            && (forall s :: s in h.services <==> exists t :: Asked(store, tasks, t) && CellUsed(store, t, s, inbound))
  {
    hide BuildHeatmap, ServiceTraffic, CellUsed, Asked, ServiceColumn, TaskColumn;
    SomeTable(store, tasks, inbound);
    DrawnAxes(ServiceTraffic(store, tasks, inbound).value, BuildHeatmap(ServiceTraffic(store, tasks, inbound)));
    HeatmapAxes(store, tasks, inbound);
  }

  /** A task and a service have a row exactly when the task was asked for and its cell is used. */
  lemma HasRow(store: Store, tasks: seq<string>, inbound: bool, t: string, s: string)
    requires ServiceTraffic(store, tasks, inbound).Some?
    ensures (exists r :: r in ServiceTraffic(store, tasks, inbound).value && r.task == t && r.service == s)
            <==> Asked(store, tasks, t) && CellUsed(store, t, s, inbound)
    ensures CellUsed(store, t, s, inbound) ==> t in store.packets
  {
    hide ServiceTraffic, CellVolume, Asked;
    assert CellUsed(store, t, s, inbound) ==> t in store.packets;
    hide CellUsed;
    TrafficTableIs(store, tasks, inbound);
    if Asked(store, tasks, t) && CellUsed(store, t, s, inbound) {
      var r := TrafficRow(t, s, CellVolume(store, t, s, inbound));
      assert r in ServiceTraffic(store, tasks, inbound).value;
    }
  }

  lemma HeatmapAxes(store: Store, tasks: seq<string>, inbound: bool)
    requires ServiceTraffic(store, tasks, inbound).Some?
    ensures var df := ServiceTraffic(store, tasks, inbound).value;
            && (forall t :: t in TaskColumn(df) <==> Asked(store, tasks, t) && exists s :: CellUsed(store, t, s, inbound))
            && (forall s :: s in ServiceColumn(df) <==> exists t :: Asked(store, tasks, t) && CellUsed(store, t, s, inbound))
            && (forall t | t in TaskColumn(df) :: Asked(store, tasks, t) && t in store.packets)
  {
    hide ServiceTraffic, Asked, CellUsed, TaskColumn, ServiceColumn;
    var df := ServiceTraffic(store, tasks, inbound).value;
    ColumnsAre(df);
    forall t
      ensures t in TaskColumn(df) <==> Asked(store, tasks, t) && exists s :: CellUsed(store, t, s, inbound)
      ensures t in TaskColumn(df) ==> t in store.packets
    {
      if t in TaskColumn(df) {
        var r :| r in df && r.task == t;
        HasRow(store, tasks, inbound, t, r.service);
      }
      if s :| Asked(store, tasks, t) && CellUsed(store, t, s, inbound) {
        HasRow(store, tasks, inbound, t, s);
      }
    }
    forall s ensures s in ServiceColumn(df) <==> exists t :: Asked(store, tasks, t) && CellUsed(store, t, s, inbound) {
      if s in ServiceColumn(df) {
        var r :| r in df && r.service == s;
        HasRow(store, tasks, inbound, r.task, s);
      }
      if t :| Asked(store, tasks, t) && CellUsed(store, t, s, inbound) {
        HasRow(store, tasks, inbound, t, s);
      }
    }
  }
}
