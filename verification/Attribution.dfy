/** Attribution of captured packets to tasks, services and networks (`extend_packet_df` and the
    tables it joins with, wotemu/report/reader.py). A table is a sequence of rows; a missing value
    (NaN or None) is `None`. */
module Attribution {
  import opened Collections
  import opened Subnets

  const IFACE_LO := "lo"
  const AF_INET: nat := 2

  datatype IfaceItem = IfaceItem(address: string, family: nat)

  /** One record published by a task. Dictionaries are item lists in iteration order. */
  datatype Info = Info(service: Option<string>, net: seq<(string, seq<IfaceItem>)>,
                       serviceVips: seq<(string, string)>, networksCidr: NetDict)

  datatype AddressRow = AddressRow(task: string, service: Option<string>, address: string, network: Option<string>)

  datatype VipRow = VipRow(service: Option<string>, vip: string)

  datatype Packet = Packet(date: int, iface: string, src: string, dst: string, len: nat, proto: string,
                           transport: string, srcPort: Option<nat>, dstPort: Option<nat>)

  /** A packet during the joins, with the columns added so far. */
  datatype Row = Row(packet: Packet,
                     srcTask: Option<string>, srcService: Option<string>, srcNetwork: Option<string>,
                     dstTask: Option<string>, dstService: Option<string>, dstNetwork: Option<string>,
                     srcVipService: Option<string>, dstVipService: Option<string>)

  /** A packet after the pipeline. */
  datatype ExtendedRow = ExtendedRow(packet: Packet, srcTask: Option<string>, srcService: Option<string>,
                                     dstTask: Option<string>, dstService: Option<string>, network: Option<string>)

  datatype Side = Src | Dst

  /********** Tables the packets are joined with **********/

  type InfoMap = map<string, seq<Info>>

  predicate ValidInfo(info: Info) { ValidDict(info.networksCidr) }

  predicate ValidInfos(infos: InfoMap) { forall t | t in infos :: forall i | i in infos[t] :: ValidInfo(i) }

  function InfosOf(infos: InfoMap, task: string): seq<Info> { if task in infos then infos[task] else [] }

  function IfaceRows(task: string, info: Info, items: seq<IfaceItem>, parse: string -> Ip): seq<AddressRow>
    requires ValidInfo(info)
  {
    if items == [] then []
    else (if items[0].family == AF_INET
          then [AddressRow(task, info.service, items[0].address,
                           FindNetwork(info.networksCidr, parse(items[0].address)))]
          else []) + IfaceRows(task, info, items[1..], parse)
  }

  function NetRows(task: string, info: Info, net: seq<(string, seq<IfaceItem>)>, parse: string -> Ip): seq<AddressRow>
    requires ValidInfo(info)
  {
    if net == [] then []
    else (if net[0].0 != IFACE_LO then IfaceRows(task, info, net[0].1, parse) else []) +
         NetRows(task, info, net[1..], parse)
  }

  function InfoRows(task: string, items: seq<Info>, parse: string -> Ip): seq<AddressRow>
    requires forall i | i in items :: ValidInfo(i)
  {
    if items == [] then []
    else NetRows(task, items[0], items[0].net, parse) + InfoRows(task, items[1..], parse)
  }

  /** `get_address_df`. */
  function AddressTable(tasks: seq<string>, infos: InfoMap, parse: string -> Ip): seq<AddressRow>
    requires ValidInfos(infos)
  {
    if tasks == [] then []
    else InfoRows(tasks[0], InfosOf(infos, tasks[0]), parse) + AddressTable(tasks[1..], infos, parse)
  }

  /** What the table says of an address a record reports. */
  function RecordRow(task: string, info: Info, address: string, parse: string -> Ip): AddressRow
    requires ValidInfo(info)
  {
    AddressRow(task, info.service, address, FindNetwork(info.networksCidr, parse(address)))
  }

  function VipRows(items: seq<Info>): seq<VipRow> {
    FlatMap(items, (info: Info) =>
      FlatMap(info.serviceVips, (item: (string, string)) => [VipRow(info.service, item.1)]))
  }

  /** `get_service_vip_df`: a row for every VIP of every record of every task. */
  function VipTable(tasks: seq<string>, infos: InfoMap): seq<VipRow> {
    FlatMap(tasks, (task: string) => VipRows(InfosOf(infos, task)))
  }

  /********** The joins **********/

  function Endpoint(p: Packet, side: Side): string { if side == Src then p.src else p.dst }

  function AddressMatches(table: seq<AddressRow>, address: string): (rows: seq<AddressRow>) {
    if table == [] then []
    else if table[0].address == address then [table[0]] + AddressMatches(table[1..], address)
    else AddressMatches(table[1..], address)
  }

  function VipMatches(table: seq<VipRow>, vip: string): (rows: seq<VipRow>) {
    if table == [] then []
    else if table[0].vip == vip then [table[0]] + VipMatches(table[1..], vip)
    else VipMatches(table[1..], vip)
  }

  function WithAddress(r: Row, side: Side, a: AddressRow): Row {
    match side
    case Src => r.(srcTask := Some(a.task), srcService := a.service, srcNetwork := a.network)
    case Dst => r.(dstTask := Some(a.task), dstService := a.service, dstNetwork := a.network)
  }

  function WithVip(r: Row, side: Side, v: VipRow): Row {
    match side
    case Src => r.(srcVipService := v.service)
    case Dst => r.(dstVipService := v.service)
  }

  /** One left row of a left merge: a copy for each match, or itself with missing columns. */
  function JoinAddress(r: Row, side: Side, table: seq<AddressRow>): seq<Row> {
    var ms := AddressMatches(table, Endpoint(r.packet, side));
    if ms == [] then [r] else seq(|ms|, i requires 0 <= i < |ms| => WithAddress(r, side, ms[i]))
  }

  function JoinVip(r: Row, side: Side, table: seq<VipRow>): seq<Row> {
    var ms := VipMatches(table, Endpoint(r.packet, side));
    if ms == [] then [r] else seq(|ms|, i requires 0 <= i < |ms| => WithVip(r, side, ms[i]))
  }

  function MergeAddress(df: seq<Row>, side: Side, table: seq<AddressRow>): seq<Row> {
    FlatMap(df, (r: Row) => JoinAddress(r, side, table))
  }

  function MergeVip(df: seq<Row>, side: Side, table: seq<VipRow>): seq<Row> {
    FlatMap(df, (r: Row) => JoinVip(r, side, table))
  }

  function Fresh(p: Packet): Row { Row(p, None, None, None, None, None, None, None, None) }

  function Coalesce<T>(a: Option<T>, b: Option<T>): Option<T> { if a.Some? then a else b }

  function Finish(r: Row): ExtendedRow {
    ExtendedRow(r.packet, r.srcTask, Coalesce(r.srcService, r.srcVipService),
                r.dstTask, Coalesce(r.dstService, r.dstVipService),
                Coalesce(r.srcNetwork, r.dstNetwork))
  }

  /** `extend_packet_df`. */
  function Extend(packets: seq<Packet>, addresses: seq<AddressRow>, vips: seq<VipRow>): (df: seq<ExtendedRow>) {
    var df0 := FlatMap(packets, (p: Packet) => [Fresh(p)]);
    var df1 := MergeAddress(df0, Src, addresses);
    var df2 := MergeAddress(df1, Dst, addresses);
    var df3 := MergeVip(df2, Src, vips);
    var df4 := MergeVip(df3, Dst, vips);
    FlatMap(df4, (r: Row) => [Finish(r)])
  }

  /********** Reference: one pass over the packets **********/

  /** The rows a left merge pairs a key with: the matches, or one missing row. */
  function OrMissing<T>(ms: seq<T>): (os: seq<Option<T>>)
    ensures |os| == if |ms| == 0 then 1 else |ms|
  {
    if ms == [] then [None] else seq(|ms|, i requires 0 <= i < |ms| => Some(ms[i]))
  }

  function TaskOf(a: Option<AddressRow>): Option<string> { if a.Some? then Some(a.value.task) else None }
  function ServiceOf(a: Option<AddressRow>): Option<string> { if a.Some? then a.value.service else None }
  function NetworkOf(a: Option<AddressRow>): Option<string> { if a.Some? then a.value.network else None }
  function VipServiceOf(v: Option<VipRow>): Option<string> { if v.Some? then v.value.service else None }

  /** What the report says of a packet whose endpoints were paired with these rows: a service known
      by address wins over one known by VIP, the source's network over the destination's. */
  function Attribute(p: Packet, a: Option<AddressRow>, b: Option<AddressRow>,
                     v: Option<VipRow>, w: Option<VipRow>): ExtendedRow {
    ExtendedRow(p,
                TaskOf(a), if ServiceOf(a).Some? then ServiceOf(a) else VipServiceOf(v),
                TaskOf(b), if ServiceOf(b).Some? then ServiceOf(b) else VipServiceOf(w),
                if NetworkOf(a).Some? then NetworkOf(a) else NetworkOf(b))
  }

  /** All combinations of matches of one packet: source address, destination address, source VIP,
      destination VIP, the last varying fastest. */
  function Block(p: Packet, addresses: seq<AddressRow>, vips: seq<VipRow>): (rows: seq<ExtendedRow>) {
    FlatMap(OrMissing(AddressMatches(addresses, p.src)), (a: Option<AddressRow>) => BlockA(p, a, addresses, vips))
  }

  function BlockA(p: Packet, a: Option<AddressRow>, addresses: seq<AddressRow>, vips: seq<VipRow>): seq<ExtendedRow> {
    FlatMap(OrMissing(AddressMatches(addresses, p.dst)), (b: Option<AddressRow>) => BlockAB(p, a, b, vips))
  }

  function BlockAB(p: Packet, a: Option<AddressRow>, b: Option<AddressRow>, vips: seq<VipRow>): seq<ExtendedRow> {
    FlatMap(OrMissing(VipMatches(vips, p.src)), (v: Option<VipRow>) => BlockABV(p, a, b, v, vips))
  }

  function BlockABV(p: Packet, a: Option<AddressRow>, b: Option<AddressRow>, v: Option<VipRow>,
                    vips: seq<VipRow>): seq<ExtendedRow> {
    FlatMap(OrMissing(VipMatches(vips, p.dst)), (w: Option<VipRow>) => [Attribute(p, a, b, v, w)])
  }

  function AtLeastOne(n: nat): nat { if n == 0 then 1 else n }

  /** Number of extended rows of a packet. */
  function Multiplicity(p: Packet, addresses: seq<AddressRow>, vips: seq<VipRow>): nat {
    var atAddresses: nat := AtLeastOne(|AddressMatches(addresses, p.src)|) * AtLeastOne(|AddressMatches(addresses, p.dst)|);
    var andSource: nat := atAddresses * AtLeastOne(|VipMatches(vips, p.src)|);
    andSource * AtLeastOne(|VipMatches(vips, p.dst)|)
  }

  /** Each endpoint of the packet is known by at most one address row and at most one VIP row. */
  predicate Unambiguous(p: Packet, addresses: seq<AddressRow>, vips: seq<VipRow>) {
    && |AddressMatches(addresses, p.src)| <= 1 && |AddressMatches(addresses, p.dst)| <= 1
    && |VipMatches(vips, p.src)| <= 1 && |VipMatches(vips, p.dst)| <= 1
  }

  function First<T>(ms: seq<T>): Option<T> { if ms == [] then None else Some(ms[0]) }

  function Lookup(p: Packet, addresses: seq<AddressRow>, vips: seq<VipRow>): ExtendedRow {
    Attribute(p, First(AddressMatches(addresses, p.src)), First(AddressMatches(addresses, p.dst)),
              First(VipMatches(vips, p.src)), First(VipMatches(vips, p.dst)))
  }
}
