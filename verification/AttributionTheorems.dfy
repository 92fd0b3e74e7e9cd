/** What the attribution pipeline computes: the joins against the one-pass reference, the exact row
    multiplicity, and when packet counts and traffic volumes are conserved. */
module AttributionTheorems {
  import opened Collections
  import opened Subnets
  import opened Attribution

  function PacketLen(p: Packet): int { p.len }

  function RowLen(r: ExtendedRow): int { r.packet.len }

  function SetAddress(r: Row, side: Side, o: Option<AddressRow>): Row {
    if o.None? then r else WithAddress(r, side, o.value)
  }

  function SetVip(r: Row, side: Side, o: Option<VipRow>): Row {
    if o.None? then r else WithVip(r, side, o.value)
  }

  lemma ThroughAddressJoin(r: Row, side: Side, table: seq<AddressRow>, g: Row -> seq<ExtendedRow>,
                           h: Option<AddressRow> -> seq<ExtendedRow>)
    requires forall o: Option<AddressRow> :: h(o) == g(SetAddress(r, side, o))
    ensures FlatMap(JoinAddress(r, side, table), g)
         == FlatMap(OrMissing(AddressMatches(table, Endpoint(r.packet, side))), h)
  {
    FlatMapPointwise(JoinAddress(r, side, table), OrMissing(AddressMatches(table, Endpoint(r.packet, side))), g, h);
  }

  lemma ThroughVipJoin(r: Row, side: Side, table: seq<VipRow>, g: Row -> seq<ExtendedRow>,
                       h: Option<VipRow> -> seq<ExtendedRow>)
    requires forall o: Option<VipRow> :: h(o) == g(SetVip(r, side, o))
    ensures FlatMap(JoinVip(r, side, table), g)
         == FlatMap(OrMissing(VipMatches(table, Endpoint(r.packet, side))), h)
  {
    FlatMapPointwise(JoinVip(r, side, table), OrMissing(VipMatches(table, Endpoint(r.packet, side))), g, h);
  }

  // What the rest of the pipeline makes of one row, from the last join backwards.

  function FromDstVip(r: Row, vips: seq<VipRow>): seq<ExtendedRow> {
    FlatMap(JoinVip(r, Dst, vips), (x: Row) => [Finish(x)])
  }

  function FromSrcVip(r: Row, vips: seq<VipRow>): seq<ExtendedRow> {
    FlatMap(JoinVip(r, Src, vips), (x: Row) => FromDstVip(x, vips))
  }

  function FromDstAddress(r: Row, addresses: seq<AddressRow>, vips: seq<VipRow>): seq<ExtendedRow> {
    FlatMap(JoinAddress(r, Dst, addresses), (x: Row) => FromSrcVip(x, vips))
  }

  function FromSrcAddress(r: Row, addresses: seq<AddressRow>, vips: seq<VipRow>): seq<ExtendedRow> {
    FlatMap(JoinAddress(r, Src, addresses), (x: Row) => FromDstAddress(x, addresses, vips))
  }

  lemma ExtendIsRowLocal(packets: seq<Packet>, addresses: seq<AddressRow>, vips: seq<VipRow>)
    ensures Extend(packets, addresses, vips)
         == FlatMap(packets, (p: Packet) => FromSrcAddress(Fresh(p), addresses, vips))
  {
    var fin := (r: Row) => [Finish(r)];
    var f4, g3 := (r: Row) => JoinVip(r, Dst, vips), (r: Row) => FromDstVip(r, vips);
    var f3, g2 := (r: Row) => JoinVip(r, Src, vips), (r: Row) => FromSrcVip(r, vips);
    var f2, g1 := (r: Row) => JoinAddress(r, Dst, addresses), (r: Row) => FromDstAddress(r, addresses, vips);
    var f1, g0 := (r: Row) => JoinAddress(r, Src, addresses), (r: Row) => FromSrcAddress(r, addresses, vips);
    var f0 := (p: Packet) => [Fresh(p)];
    var h := (p: Packet) => FromSrcAddress(Fresh(p), addresses, vips);
    var df0 := FlatMap(packets, f0);
    var df1 := FlatMap(df0, f1);
    var df2 := FlatMap(df1, f2);
    var df3 := FlatMap(df2, f3);
    assert Extend(packets, addresses, vips) == FlatMap(FlatMap(df3, f4), fin);
    FlatMapAssoc(df3, f4, fin, g3);
    FlatMapAssoc(df2, f3, g3, g2);
    FlatMapAssoc(df1, f2, g2, g1);
    FlatMapAssoc(df0, f1, g1, g0);
    FlatMapAssoc(packets, f0, g0, h);
  }

  /** The row of a packet once its endpoints are paired with an address row each. */
  function Paired(p: Packet, a: Option<AddressRow>, b: Option<AddressRow>): Row {
    SetAddress(SetAddress(Fresh(p), Src, a), Dst, b)
  }

  lemma FromPairedVip(p: Packet, a: Option<AddressRow>, b: Option<AddressRow>, v: Option<VipRow>, vips: seq<VipRow>)
    ensures FromDstVip(SetVip(Paired(p, a, b), Src, v), vips) == BlockABV(p, a, b, v, vips)
  {
    ThroughVipJoin(SetVip(Paired(p, a, b), Src, v), Dst, vips, (x: Row) => [Finish(x)],
                   (w: Option<VipRow>) => [Attribute(p, a, b, v, w)]);
  }

  lemma FromPaired(p: Packet, a: Option<AddressRow>, b: Option<AddressRow>, vips: seq<VipRow>)
    ensures FromSrcVip(Paired(p, a, b), vips) == BlockAB(p, a, b, vips)
  {
    forall v ensures FromDstVip(SetVip(Paired(p, a, b), Src, v), vips) == BlockABV(p, a, b, v, vips) {
      FromPairedVip(p, a, b, v, vips);
    }
    ThroughVipJoin(Paired(p, a, b), Src, vips, (x: Row) => FromDstVip(x, vips),
                   (v: Option<VipRow>) => BlockABV(p, a, b, v, vips));
  }

  lemma FromSource(p: Packet, a: Option<AddressRow>, addresses: seq<AddressRow>, vips: seq<VipRow>)
    ensures FromDstAddress(SetAddress(Fresh(p), Src, a), addresses, vips) == BlockA(p, a, addresses, vips)
  {
    forall b ensures FromSrcVip(Paired(p, a, b), vips) == BlockAB(p, a, b, vips) {
      FromPaired(p, a, b, vips);
    }
    ThroughAddressJoin(SetAddress(Fresh(p), Src, a), Dst, addresses, (x: Row) => FromSrcVip(x, vips),
                       (b: Option<AddressRow>) => BlockAB(p, a, b, vips));
  }

  lemma BlockOfFresh(p: Packet, addresses: seq<AddressRow>, vips: seq<VipRow>)
    ensures FromSrcAddress(Fresh(p), addresses, vips) == Block(p, addresses, vips)
  {
    forall a
      ensures FromDstAddress(SetAddress(Fresh(p), Src, a), addresses, vips) == BlockA(p, a, addresses, vips)
    {
      FromSource(p, a, addresses, vips);
    }
    ThroughAddressJoin(Fresh(p), Src, addresses, (x: Row) => FromDstAddress(x, addresses, vips),
                       (a: Option<AddressRow>) => BlockA(p, a, addresses, vips));
  }

  /** For all tables, duplicate keys included, the four joins and the coalescing emit exactly the
      packets' blocks of combinations, in packet order. */
  lemma ExtendIsBlocks(packets: seq<Packet>, addresses: seq<AddressRow>, vips: seq<VipRow>)
    ensures Extend(packets, addresses, vips) == FlatMap(packets, (p: Packet) => Block(p, addresses, vips))
  {
    ExtendIsRowLocal(packets, addresses, vips);
    forall p: Packet ensures FromSrcAddress(Fresh(p), addresses, vips) == Block(p, addresses, vips) {
      BlockOfFresh(p, addresses, vips);
    }
    FlatMapCong(packets, (p: Packet) => FromSrcAddress(Fresh(p), addresses, vips),
                (p: Packet) => Block(p, addresses, vips));
  }

  predicate AllOf(rows: seq<ExtendedRow>, p: Packet) {
    forall r | r in rows :: r.packet == p
  }

  lemma BlockABVSize(p: Packet, a: Option<AddressRow>, b: Option<AddressRow>, v: Option<VipRow>, vips: seq<VipRow>)
    ensures |BlockABV(p, a, b, v, vips)| == AtLeastOne(|VipMatches(vips, p.dst)|)
    ensures AllOf(BlockABV(p, a, b, v, vips), p)
  {
    var f := (w: Option<VipRow>) => [Attribute(p, a, b, v, w)];
    FlatMapUniform(OrMissing(VipMatches(vips, p.dst)), f, 1);
    forall r | r in BlockABV(p, a, b, v, vips) ensures r.packet == p {
      FlatMapMember(OrMissing(VipMatches(vips, p.dst)), f, r);
    }
  }

  lemma BlockABSize(p: Packet, a: Option<AddressRow>, b: Option<AddressRow>, vips: seq<VipRow>)
    ensures |BlockAB(p, a, b, vips)| == AtLeastOne(|VipMatches(vips, p.src)|) * AtLeastOne(|VipMatches(vips, p.dst)|)
    ensures AllOf(BlockAB(p, a, b, vips), p)
  {
    var f := (v: Option<VipRow>) => BlockABV(p, a, b, v, vips);
    forall v { BlockABVSize(p, a, b, v, vips); }
    FlatMapUniform(OrMissing(VipMatches(vips, p.src)), f, AtLeastOne(|VipMatches(vips, p.dst)|));
    forall r | r in BlockAB(p, a, b, vips) ensures r.packet == p {
      FlatMapMember(OrMissing(VipMatches(vips, p.src)), f, r);
    }
  }

  lemma BlockASize(p: Packet, a: Option<AddressRow>, addresses: seq<AddressRow>, vips: seq<VipRow>)
    ensures |BlockA(p, a, addresses, vips)| == AtLeastOne(|AddressMatches(addresses, p.dst)|) *
            (AtLeastOne(|VipMatches(vips, p.src)|) * AtLeastOne(|VipMatches(vips, p.dst)|))
    ensures AllOf(BlockA(p, a, addresses, vips), p)
  {
    var f := (b: Option<AddressRow>) => BlockAB(p, a, b, vips);
    forall b { BlockABSize(p, a, b, vips); }
    FlatMapUniform(OrMissing(AddressMatches(addresses, p.dst)), f,
                   AtLeastOne(|VipMatches(vips, p.src)|) * AtLeastOne(|VipMatches(vips, p.dst)|));
    forall r | r in BlockA(p, a, addresses, vips) ensures r.packet == p {
      FlatMapMember(OrMissing(AddressMatches(addresses, p.dst)), f, r);
    }
  }

  lemma ProductOfFour(a: nat, b: nat, c: nat, d: nat)
    ensures a * (b * (c * d)) == a * b * c * d
  {
  }

  /** A packet's block has exactly the product of its match counts, each at least one, and carries
      the packet's own columns unchanged. */
  lemma BlockSize(p: Packet, addresses: seq<AddressRow>, vips: seq<VipRow>)
    ensures |Block(p, addresses, vips)| == Multiplicity(p, addresses, vips)
    ensures AllOf(Block(p, addresses, vips), p)
  {
    var a0, b0 := AtLeastOne(|AddressMatches(addresses, p.src)|), AtLeastOne(|AddressMatches(addresses, p.dst)|);
    var c0, d0 := AtLeastOne(|VipMatches(vips, p.src)|), AtLeastOne(|VipMatches(vips, p.dst)|);
    var f := (a: Option<AddressRow>) => BlockA(p, a, addresses, vips);
    forall a { BlockASize(p, a, addresses, vips); }
    FlatMapUniform(OrMissing(AddressMatches(addresses, p.src)), f, b0 * (c0 * d0));
    ProductOfFour(a0, b0, c0, d0);
    forall r | r in Block(p, addresses, vips) ensures r.packet == p {
      FlatMapMember(OrMissing(AddressMatches(addresses, p.src)), f, r);
    }
  }

  lemma ProductIsOne(a: nat, b: nat)
    requires a >= 1 && b >= 1
    ensures a * b >= 1
    ensures a * b == 1 <==> a == 1 && b == 1
  {
    assert a * b == a + a * (b - 1);
    assert a * b == b + (a - 1) * b;
    assert a * (b - 1) >= 0 && (a - 1) * b >= 0;
  }

  lemma MultiplicityIsOne(p: Packet, addresses: seq<AddressRow>, vips: seq<VipRow>)
    ensures Multiplicity(p, addresses, vips) >= 1
    ensures Multiplicity(p, addresses, vips) == 1 <==> Unambiguous(p, addresses, vips)
  {
    var a, b := AtLeastOne(|AddressMatches(addresses, p.src)|), AtLeastOne(|AddressMatches(addresses, p.dst)|);
    var c, d := AtLeastOne(|VipMatches(vips, p.src)|), AtLeastOne(|VipMatches(vips, p.dst)|);
    ProductIsOne(a, b);
    ProductIsOne(a * b, c);
    ProductIsOne(a * b * c, d);
  }

  /** The number of extended rows is the sum of the packets' multiplicities, and it equals the number
      of packets exactly when every packet is unambiguous. */
  lemma RowCount(packets: seq<Packet>, addresses: seq<AddressRow>, vips: seq<VipRow>)
    ensures |Extend(packets, addresses, vips)| == Sum(packets, (p: Packet) => Multiplicity(p, addresses, vips))
    ensures |Extend(packets, addresses, vips)| == |packets| <==>
              forall p | p in packets :: Unambiguous(p, addresses, vips)
  {
    var one, m := (p: Packet) => 1, (p: Packet) => Multiplicity(p, addresses, vips);
    var unit := (r: ExtendedRow) => 1;
    ExtendIsBlocks(packets, addresses, vips);
    forall p: Packet
      ensures m(p) == Sum(Block(p, addresses, vips), unit)
      ensures one(p) <= m(p) && (one(p) == m(p) <==> Unambiguous(p, addresses, vips))
    {
      BlockSize(p, addresses, vips);
      MultiplicityIsOne(p, addresses, vips);
      SumUniform(Block(p, addresses, vips), unit, 1);
    }
    SumFlatMap(packets, (p: Packet) => Block(p, addresses, vips), unit, m);
    SumUniform(Extend(packets, addresses, vips), unit, 1);
    SumUniform(packets, one, 1);
    SumCompare(packets, one, m);
  }

  lemma LenTimes(l: nat, m: nat)
    requires m >= 1
    ensures l <= l * m
    ensures l == l * m <==> l == 0 || m == 1
  {
    assert l * m == l + l * (m - 1);
    if l > 0 && m > 1 {
      assert l * (m - 1) > 0;
    }
  }

  /** The traffic volume of the extended table weighs every packet by its multiplicity; it is never
      less than the captured volume, and equals it exactly when every packet that carries data is
      unambiguous. */
  lemma VolumeConserved(packets: seq<Packet>, addresses: seq<AddressRow>, vips: seq<VipRow>)
    ensures Sum(Extend(packets, addresses, vips), RowLen)
         == Sum(packets, (p: Packet) => p.len * Multiplicity(p, addresses, vips))
    ensures Sum(Extend(packets, addresses, vips), RowLen) >= Sum(packets, PacketLen)
    ensures Sum(Extend(packets, addresses, vips), RowLen) == Sum(packets, PacketLen) <==>
              forall p | p in packets && p.len > 0 :: Unambiguous(p, addresses, vips)
  {
    var m := (p: Packet) => p.len * Multiplicity(p, addresses, vips);
    ExtendIsBlocks(packets, addresses, vips);
    forall p: Packet
      ensures m(p) == Sum(Block(p, addresses, vips), RowLen)
      ensures PacketLen(p) <= m(p) && (PacketLen(p) == m(p) <==> p.len == 0 || Unambiguous(p, addresses, vips))
    {
      BlockSize(p, addresses, vips);
      MultiplicityIsOne(p, addresses, vips);
      SumUniform(Block(p, addresses, vips), RowLen, p.len);
      assert Multiplicity(p, addresses, vips) * p.len == p.len * Multiplicity(p, addresses, vips);
      LenTimes(p.len, Multiplicity(p, addresses, vips));
    }
    SumFlatMap(packets, (p: Packet) => Block(p, addresses, vips), RowLen, m);
    SumCompare(packets, PacketLen, m);
  }

  lemma UnambiguousBlock(p: Packet, addresses: seq<AddressRow>, vips: seq<VipRow>)
    requires Unambiguous(p, addresses, vips)
    ensures Block(p, addresses, vips) == [Lookup(p, addresses, vips)]
  {
    var a, b := First(AddressMatches(addresses, p.src)), First(AddressMatches(addresses, p.dst));
    var v, w := First(VipMatches(vips, p.src)), First(VipMatches(vips, p.dst));
    assert OrMissing(AddressMatches(addresses, p.src)) == [a];
    assert OrMissing(AddressMatches(addresses, p.dst)) == [b];
    assert OrMissing(VipMatches(vips, p.src)) == [v];
    assert OrMissing(VipMatches(vips, p.dst)) == [w];
    FlatMapOne(w, (x: Option<VipRow>) => [Attribute(p, a, b, v, x)]);
    FlatMapOne(v, (x: Option<VipRow>) => BlockABV(p, a, b, x, vips));
    FlatMapOne(b, (x: Option<AddressRow>) => BlockAB(p, a, x, vips));
    FlatMapOne(a, (x: Option<AddressRow>) => BlockA(p, x, addresses, vips));
  }

  /** On unambiguous packets the whole join, rename, fillna and drop pipeline is one lookup per packet. */
  lemma ExtendIsLookup(packets: seq<Packet>, addresses: seq<AddressRow>, vips: seq<VipRow>)
    requires forall p | p in packets :: Unambiguous(p, addresses, vips)
    ensures |Extend(packets, addresses, vips)| == |packets|
    ensures forall i | 0 <= i < |packets| ::
              Extend(packets, addresses, vips)[i] == Lookup(packets[i], addresses, vips)
  {
    ExtendIsBlocks(packets, addresses, vips);
    var looked := seq(|packets|, i requires 0 <= i < |packets| => Lookup(packets[i], addresses, vips));
    var unit := (r: ExtendedRow) => [r];
    forall i | 0 <= i < |packets| ensures Block(packets[i], addresses, vips) == unit(looked[i]) {
      UnambiguousBlock(packets[i], addresses, vips);
    }
    FlatMapPointwise(packets, looked, (p: Packet) => Block(p, addresses, vips), unit);
    FlatMapUnit(looked);
  }

  lemma {:induction false} FlatMapUnit(rows: seq<ExtendedRow>)
    ensures FlatMap(rows, (r: ExtendedRow) => [r]) == rows
  {
    if rows != [] {
      FlatMapUnit(rows[1..]);
    }
  }

  /********** Where duplicate VIP keys come from **********/

  /********** Addresses **********/

  function Copies<T>(n: nat, x: T): (r: seq<T>)
    ensures |r| == n && forall i | 0 <= i < n :: r[i] == x
  {
    seq(n, _ => x)
  }

  /** How often an interface has the address, in the family of IPv4. */
  function OnIface(items: seq<IfaceItem>, address: string): nat {
    if items == [] then 0
    else (if items[0].family == 2 && items[0].address == address then 1 else 0) + OnIface(items[1..], address)
  }

  /** How often a record reports the address, loopback aside. */
  function Reports(net: seq<(string, seq<IfaceItem>)>, address: string): nat {
    if net == [] then 0
    else (if net[0].0 != "lo" then OnIface(net[0].1, address) else 0) + Reports(net[1..], address)
  }

  /** The rows of one task that have an address: for each record, as many copies of the record's row as there
      are reports. */
  function TaskRows(task: string, items: seq<Info>, address: string, parse: string -> Ip): seq<AddressRow>
    requires forall i | i in items :: ValidInfo(i)
  {
    if items == [] then []
    else Copies(Reports(items[0].net, address), RecordRow(task, items[0], address, parse))
         + TaskRows(task, items[1..], address, parse)
  }

  function RowsOf(tasks: seq<string>, infos: InfoMap, address: string, parse: string -> Ip): seq<AddressRow>
    requires ValidInfos(infos)
  {
    if tasks == [] then []
    else if tasks[0] !in infos then RowsOf(tasks[1..], infos, address, parse)
    else TaskRows(tasks[0], infos[tasks[0]], address, parse) + RowsOf(tasks[1..], infos, address, parse)
  }

  function TaskReports(items: seq<Info>, address: string): int {
    Sum(items, (info: Info) => Reports(info.net, address))
  }

  lemma {:induction false} AddressMatchesConcat(xs: seq<AddressRow>, ys: seq<AddressRow>, address: string)
    ensures AddressMatches(xs + ys, address) == AddressMatches(xs, address) + AddressMatches(ys, address)
  {
    if xs == [] {
      assert xs + ys == ys;
    } else {
      assert (xs + ys)[1..] == xs[1..] + ys && (xs + ys)[0] == xs[0];
      AddressMatchesConcat(xs[1..], ys, address);
      var m, n := AddressMatches(xs[1..], address), AddressMatches(ys, address);
      assert [xs[0]] + (m + n) == ([xs[0]] + m) + n;
    }
  }

  lemma {:induction false} IfaceMatches(task: string, info: Info, items: seq<IfaceItem>, address: string, parse: string -> Ip)
    requires ValidInfo(info)
    ensures AddressMatches(IfaceRows(task, info, items, parse), address)
         == Copies(OnIface(items, address), RecordRow(task, info, address, parse))
  {
    if items != [] {
      IfaceMatches(task, info, items[1..], address, parse);
      var first := if items[0].family == AF_INET then [RecordRow(task, info, items[0].address, parse)] else [];
      AddressMatchesConcat(first, IfaceRows(task, info, items[1..], parse), address);
      assert first != [] ==> first[1..] == [];
    }
  }

  lemma {:induction false} NetMatches(task: string, info: Info, net: seq<(string, seq<IfaceItem>)>, address: string,
                                      parse: string -> Ip)
    requires ValidInfo(info)
    ensures AddressMatches(NetRows(task, info, net, parse), address)
         == Copies(Reports(net, address), RecordRow(task, info, address, parse))
  {
    if net != [] {
      NetMatches(task, info, net[1..], address, parse);
      IfaceMatches(task, info, net[0].1, address, parse);
      var first := if net[0].0 != IFACE_LO then IfaceRows(task, info, net[0].1, parse) else [];
      AddressMatchesConcat(first, NetRows(task, info, net[1..], parse), address);
    }
  }

  lemma {:induction false} InfoMatches(task: string, items: seq<Info>, address: string, parse: string -> Ip)
    requires forall i | i in items :: ValidInfo(i)
    ensures AddressMatches(InfoRows(task, items, parse), address) == TaskRows(task, items, address, parse)
    ensures |TaskRows(task, items, address, parse)| == TaskReports(items, address)
  {
    if items != [] {
      InfoMatches(task, items[1..], address, parse);
      NetMatches(task, items[0], items[0].net, address, parse);
      AddressMatchesConcat(NetRows(task, items[0], items[0].net, parse), InfoRows(task, items[1..], parse), address);
    }
  }

  /** The address rows a packet endpoint matches: one for each IPv4 report of the address outside the loopback
      interface, over all tasks, records and interfaces in order, and each with the network that the record's
      own prefix blocks give the address. */
  lemma {:induction false} AddressTableMatches(tasks: seq<string>, infos: InfoMap, address: string, parse: string -> Ip)
    requires ValidInfos(infos)
    ensures AddressMatches(AddressTable(tasks, infos, parse), address) == RowsOf(tasks, infos, address, parse)
    ensures |RowsOf(tasks, infos, address, parse)| == Sum(tasks, (t: string) => TaskReports(InfosOf(infos, t), address))
  {
    if tasks != [] {
      AddressTableMatches(tasks[1..], infos, address, parse);
      InfoMatches(tasks[0], InfosOf(infos, tasks[0]), address, parse);
      AddressMatchesConcat(InfoRows(tasks[0], InfosOf(infos, tasks[0]), parse), AddressTable(tasks[1..], infos, parse), address);
    }
  }

  /** The same record but for the order of its networks. */
  ghost predicate SameButOrder(i: Info, j: Info) {
    j == i.(networksCidr := j.networksCidr) && Reordering(i.networksCidr, j.networksCidr)
  }

  lemma {:induction false} SameTaskRows(task: string, items: seq<Info>, jtems: seq<Info>, address: string, parse: string -> Ip)
    requires |items| == |jtems| && forall k | 0 <= k < |items| ::
               ValidInfo(items[k]) && ValidInfo(jtems[k]) && SameButOrder(items[k], jtems[k]) && Separate(items[k].networksCidr)
    ensures TaskRows(task, items, address, parse) == TaskRows(task, jtems, address, parse)
  {
    if items != [] {
      var i, j := items[0], jtems[0];
      SeparateIsOrderFree(i.networksCidr, j.networksCidr, parse(address));
      assert forall k | 0 <= k < |items| - 1 :: items[1..][k] == items[k + 1] && jtems[1..][k] == jtems[k + 1];
      SameTaskRows(task, items[1..], jtems[1..], address, parse);
    }
  }

  /** When the networks of every record are separate, what an endpoint matches does not depend on the order in
      which the records list their networks. */
  lemma {:induction false} AddressRowsOrderFree(tasks: seq<string>, infos: InfoMap, jnfos: InfoMap, address: string,
                                               parse: string -> Ip)
    requires ValidInfos(infos) && ValidInfos(jnfos) && infos.Keys == jnfos.Keys
    requires forall t | t in infos :: |infos[t]| == |jnfos[t]| && forall k | 0 <= k < |infos[t]| ::
               ValidInfo(infos[t][k]) && SameButOrder(infos[t][k], jnfos[t][k]) && Separate(infos[t][k].networksCidr)
    ensures AddressMatches(AddressTable(tasks, infos, parse), address) == AddressMatches(AddressTable(tasks, jnfos, parse), address)
  {
    AddressTableMatches(tasks, infos, address, parse);
    AddressTableMatches(tasks, jnfos, address, parse);
    if tasks != [] {
      AddressRowsOrderFree(tasks[1..], infos, jnfos, address, parse);
      AddressTableMatches(tasks[1..], infos, address, parse);
      AddressTableMatches(tasks[1..], jnfos, address, parse);
      SameTaskRows(tasks[0], InfosOf(infos, tasks[0]), InfosOf(jnfos, tasks[0]), address, parse);
    }
  }


  function VipsIn(items: seq<(string, string)>, vip: string): int {
    Sum(items, (item: (string, string)) => if item.1 == vip then 1 else 0)
  }

  function VipsReported(infos: seq<Info>, vip: string): int {
    Sum(infos, (info: Info) => VipsIn(info.serviceVips, vip))
  }

  function IsVip(r: VipRow, vip: string): int { if r.vip == vip then 1 else 0 }

  lemma {:induction false} VipMatchesCount(table: seq<VipRow>, vip: string)
    ensures |VipMatches(table, vip)| == Sum(table, (r: VipRow) => IsVip(r, vip))
  {
    if table != [] {
      VipMatchesCount(table[1..], vip);
    }
  }

  lemma VipRowsCount(items: seq<Info>, vip: string)
    ensures Sum(VipRows(items), (r: VipRow) => IsVip(r, vip)) == VipsReported(items, vip)
  {
    var isVip := (r: VipRow) => IsVip(r, vip);
    var ofInfo := (info: Info) => FlatMap(info.serviceVips, (item: (string, string)) => [VipRow(info.service, item.1)]);
    var count := (info: Info) => VipsIn(info.serviceVips, vip);
    forall info: Info
      ensures count(info) == Sum(ofInfo(info), isVip)
    {
      var f := (item: (string, string)) => [VipRow(info.service, item.1)];
      var hit := (item: (string, string)) => if item.1 == vip then 1 else 0;
      forall item ensures hit(item) == Sum(f(item), isVip) {
        assert f(item)[1..] == [];
      }
      SumFlatMap(info.serviceVips, f, isVip, hit);
    }
    SumFlatMap(items, ofInfo, isVip, count);
  }

  /** The VIP rows of one task: for each record, as many copies of its service and the VIP as it has networks with
      that VIP. */
  function TaskVips(items: seq<Info>, vip: string): seq<VipRow> {
    if items == [] then []
    else Copies(NetworksWith(items[0].serviceVips, vip), VipRow(items[0].service, vip)) + TaskVips(items[1..], vip)
  }

  function NetworksWith(vips: seq<(string, string)>, vip: string): nat {
    if vips == [] then 0 else (if vips[0].1 == vip then 1 else 0) + NetworksWith(vips[1..], vip)
  }

  function VipsOf(tasks: seq<string>, infos: InfoMap, vip: string): seq<VipRow> {
    if tasks == [] then []
    else if tasks[0] !in infos then VipsOf(tasks[1..], infos, vip)
    else TaskVips(infos[tasks[0]], vip) + VipsOf(tasks[1..], infos, vip)
  }

  lemma {:induction false} VipMatchesConcat(xs: seq<VipRow>, ys: seq<VipRow>, vip: string)
    ensures VipMatches(xs + ys, vip) == VipMatches(xs, vip) + VipMatches(ys, vip)
  {
    if xs == [] {
      assert xs + ys == ys;
    } else {
      assert (xs + ys)[1..] == xs[1..] + ys && (xs + ys)[0] == xs[0];
      VipMatchesConcat(xs[1..], ys, vip);
      var m, n := VipMatches(xs[1..], vip), VipMatches(ys, vip);
      assert [xs[0]] + (m + n) == ([xs[0]] + m) + n;
    }
  }

  lemma {:induction false} RecordVips(service: Option<string>, vips: seq<(string, string)>, vip: string,
                                      f: ((string, string)) -> seq<VipRow>)
    requires forall item :: f(item) == [VipRow(service, item.1)]
    ensures VipMatches(FlatMap(vips, f), vip) == Copies(NetworksWith(vips, vip), VipRow(service, vip))
  {
    if vips != [] {
      RecordVips(service, vips[1..], vip, f);
      VipMatchesConcat(f(vips[0]), FlatMap(vips[1..], f), vip);
      assert f(vips[0])[1..] == [];
    }
  }

  lemma {:induction false} TaskVipMatches(items: seq<Info>, vip: string)
    ensures VipMatches(VipRows(items), vip) == TaskVips(items, vip)
  {
    if items != [] {
      TaskVipMatches(items[1..], vip);
      var info := items[0];
      var f := (item: (string, string)) => [VipRow(info.service, item.1)];
      RecordVips(info.service, info.serviceVips, vip, f);
      VipMatchesConcat(FlatMap(info.serviceVips, f), VipRows(items[1..]), vip);
    }
  }

  /** The VIP rows a packet endpoint matches: over tasks, records and networks in order, one for each report of
      the VIP, with the service of the reporting record. */
  lemma {:induction false} VipTableMatches(tasks: seq<string>, infos: InfoMap, vip: string)
    ensures VipMatches(VipTable(tasks, infos), vip) == VipsOf(tasks, infos, vip)
  {
    if tasks != [] {
      VipTableMatches(tasks[1..], infos, vip);
      TaskVipMatches(InfosOf(infos, tasks[0]), vip);
      VipMatchesConcat(VipRows(InfosOf(infos, tasks[0])), VipTable(tasks[1..], infos), vip);
    }
  }

  /** The number of VIP rows a packet endpoint matches is the number of times the address is reported,
      over all tasks, records and networks. */
  lemma VipTableCount(tasks: seq<string>, infos: InfoMap, vip: string)
    ensures |VipMatches(VipTable(tasks, infos), vip)|
         == Sum(tasks, (t: string) => VipsReported(InfosOf(infos, t), vip))
  {
    var isVip := (r: VipRow) => IsVip(r, vip);
    var count := (t: string) => VipsReported(InfosOf(infos, t), vip);
    forall t: string ensures count(t) == Sum(VipRows(InfosOf(infos, t)), isVip) {
      VipRowsCount(InfosOf(infos, t), vip);
    }
    VipMatchesCount(VipTable(tasks, infos), vip);
    SumFlatMap(tasks, (t: string) => VipRows(InfosOf(infos, t)), isVip, count);
  }

  lemma {:induction false} VipsReportedNonNegative(infos: seq<Info>, vip: string)
    ensures VipsReported(infos, vip) >= 0
  {
    var zero := (info: Info) => 0;
    forall info: Info ensures VipsIn(info.serviceVips, vip) >= 0 {
      var hit := (item: (string, string)) => if item.1 == vip then 1 else 0;
      SumUniform(info.serviceVips, (item: (string, string)) => 0, 0);
      SumCompare(info.serviceVips, (item: (string, string)) => 0, hit);
    }
    SumUniform(infos, zero, 0);
    SumCompare(infos, zero, (info: Info) => VipsIn(info.serviceVips, vip));
  }

  lemma {:induction false} SumAtLeastTwo(tasks: seq<string>, w: string -> int, i: nat, j: nat)
    requires i < j < |tasks| && w(tasks[i]) >= 1 && w(tasks[j]) >= 1
    requires forall t :: w(t) >= 0
    ensures Sum(tasks, w) >= 2
  {
    var zero := (t: string) => 0;
    assert tasks == tasks[..i] + ([tasks[i]] + (tasks[i + 1..j] + ([tasks[j]] + tasks[j + 1..])));
    SumConcat(tasks[..i], [tasks[i]] + (tasks[i + 1..j] + ([tasks[j]] + tasks[j + 1..])), w);
    SumConcat([tasks[i]], tasks[i + 1..j] + ([tasks[j]] + tasks[j + 1..]), w);
    SumConcat(tasks[i + 1..j], [tasks[j]] + tasks[j + 1..], w);
    SumConcat([tasks[j]], tasks[j + 1..], w);
    NonNegativeSum(tasks[..i], w);
    NonNegativeSum(tasks[i + 1..j], w);
    NonNegativeSum(tasks[j + 1..], w);
    assert [tasks[i]][1..] == [] && [tasks[j]][1..] == [];
  }

  lemma NonNegativeSum(tasks: seq<string>, w: string -> int)
    requires forall t :: w(t) >= 0
    ensures Sum(tasks, w) >= 0
  {
    var zero := (t: string) => 0;
    SumUniform(tasks, zero, 0);
    SumCompare(tasks, zero, w);
  }

  /** Conservation is false in general: a VIP belongs to a service but is reported by every one of its
      tasks, so once two tasks report the same VIP, any packet with data that uses it is counted
      more than once. */
  lemma ReplicasInflateVolume(tasks: seq<string>, infos: InfoMap, addresses: seq<AddressRow>,
                              packets: seq<Packet>, vip: string, i: nat, j: nat, p: Packet)
    requires i < j < |tasks|
    requires VipsReported(InfosOf(infos, tasks[i]), vip) > 0 && VipsReported(InfosOf(infos, tasks[j]), vip) > 0
    requires p in packets && p.len > 0 && (p.src == vip || p.dst == vip)
    ensures Sum(Extend(packets, addresses, VipTable(tasks, infos)), RowLen) > Sum(packets, PacketLen)
  {
    var count := (t: string) => VipsReported(InfosOf(infos, t), vip);
    forall t: string ensures count(t) >= 0 {
      VipsReportedNonNegative(InfosOf(infos, t), vip);
    }
    SumAtLeastTwo(tasks, count, i, j);
    VipTableCount(tasks, infos, vip);
    assert !Unambiguous(p, addresses, VipTable(tasks, infos));
    VolumeConserved(packets, addresses, VipTable(tasks, infos));
  }
}
