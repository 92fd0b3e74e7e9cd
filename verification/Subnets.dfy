/** Network lookup by CIDR block (`_find_network` in wotemu/report/reader.py). Addresses are
    numbers of 32 bits (version 4) or 128 bits; a block is a prefix as in section 3.1 of RFC 4632. */
module Subnets {
  import opened Collections

  datatype Ip = Ip(version: nat, bits: nat)

  datatype Cidr = Cidr(version: nat, base: nat, prefix: nat)

  /** The `networks_cidr` dictionary of an info item: its items in iteration order. */
  type NetDict = seq<(string, seq<Cidr>)>

  function Width(version: nat): nat { if version == 4 then 32 else 128 }

  function Pow2(n: nat): (p: nat)
    ensures p > 0
  {
    if n == 0 then 1 else 2 * Pow2(n - 1)
  }

  /** Host bits may be set in `base`: membership masks them away. */
  predicate ValidCidr(c: Cidr) { c.prefix <= Width(c.version) && c.base < Pow2(Width(c.version)) }

  predicate ValidDict(d: NetDict) {
    && (forall i, j | 0 <= i < j < |d| :: d[i].0 != d[j].0)
    && (forall i, k | 0 <= i < |d| && 0 <= k < |d[i].1| :: ValidCidr(d[i].1[k]))
  }

  /** Number of addresses in a block. */
  function Size(c: Cidr): (s: nat)
    requires ValidCidr(c)
    ensures s > 0
  {
    Pow2(Width(c.version) - c.prefix)
  }

  predicate Contains(c: Cidr, ip: Ip)
    requires ValidCidr(c)
  {
    c.version == ip.version && ip.bits / Size(c) == c.base / Size(c)
  }

  /** Bit `k` of a number of `width` bits, the highest first. */
  function Bit(x: nat, width: nat, k: nat): int
    requires k < width
  {
    (x / Pow2(width - 1 - k)) % 2
  }

  function Top(x: nat, width: nat, p: nat): int
    requires p <= width
  {
    x / Pow2(width - p)
  }

  /** One bit more of the highest ones. */
  lemma TopStep(x: nat, width: nat, p: nat)
    requires p < width
    ensures Top(x, width, p + 1) / 2 == Top(x, width, p) && Top(x, width, p + 1) % 2 == Bit(x, width, p)
  {
    var s := Pow2(width - 1 - p);
    DivDiv(x, s, 2);
    assert Pow2(width - p) == s * 2;
  }

  lemma {:induction false} TopBits(x: nat, y: nat, width: nat, p: nat)
    requires p <= width && x < Pow2(width) && y < Pow2(width)
    ensures Top(x, width, p) == Top(y, width, p) <==> forall k | 0 <= k < p :: Bit(x, width, k) == Bit(y, width, k)
    decreases p
  {
    if p == 0 {
      DivUnique(x, Pow2(width), 0);
      DivUnique(y, Pow2(width), 0);
    } else {
      hide Pow2, Top, Bit;
      TopBits(x, y, width, p - 1);
      TopStep(x, width, p - 1);
      TopStep(y, width, p - 1);
      SameHalves(Top(x, width, p), Top(y, width, p));
    }
  }

  lemma SameHalves(a: int, b: int)
    ensures a == b <==> a / 2 == b / 2 && a % 2 == b % 2
  {
  }

  /** An address is in a block exactly when it has the block's version and its first `prefix` bits. */
  lemma ContainsIsPrefix(c: Cidr, ip: Ip)
    requires ValidCidr(c) && ip.bits < Pow2(if ip.version == 4 then 32 else 128)
    ensures c.prefix <= if c.version == 4 then 32 else 128
    ensures Contains(c, ip) <==>
            && c.version == ip.version
            && var width := if c.version == 4 then 32 else 128;
               forall k | 0 <= k < c.prefix :: Bit(ip.bits, width, k) == Bit(c.base, width, k)
  {
    if c.version == ip.version {
      TopBits(ip.bits, c.base, Width(c.version), c.prefix);
    }
  }

  ghost predicate Inside(c: Cidr, d: Cidr)
    requires ValidCidr(c) && ValidCidr(d)
  {
    forall ip: Ip | Contains(c, ip) :: Contains(d, ip)
  }

  lemma {:induction false} Pow2Add(a: nat, b: nat)
    ensures Pow2(a + b) == Pow2(a) * Pow2(b)
  {
    if a != 0 {
      Pow2Add(a - 1, b);
      assert Pow2(a + b) == 2 * (Pow2(a - 1) * Pow2(b)) == (2 * Pow2(a - 1)) * Pow2(b);
    }
  }

  lemma MulGap(a: nat, b: nat, s: nat)
    requires a < b
    ensures a * s + s <= b * s
  {
    assert b * s == a * s + (b - a) * s;
    assert (b - a) * s == s + (b - a - 1) * s;
  }

  lemma DivUnique(y: nat, s: nat, q: nat)
    requires s > 0 && q * s <= y < q * s + s
    ensures y / s == q
  {
    var q' := y / s;
    assert y == q' * s + y % s;
    if q' < q {
      MulGap(q', q, s);
    } else if q' > q {
      MulGap(q, q', s);
    }
  }

  lemma DivDiv(y: nat, a: nat, b: nat)
    requires a > 0 && b > 0
    ensures a * b > 0 && y / (a * b) == (y / a) / b
  {
    var u, q := y / a, (y / a) / b;
    var r, t := y % a, u % b;
    assert y == u * a + r && u == q * b + t;
    calc {
      y;
      (q * b + t) * a + r;
      (q * b) * a + t * a + r;
      q * (a * b) + t * a + r;
    }
    MulGap(t, b, a);
    assert a * b == b * a > 0;
    DivUnique(y, a * b, q);
  }

  /** A longer prefix that shares one address with a shorter one lies inside it. */
  lemma SharedMeansInside(c: Cidr, d: Cidr, ip: Ip)
    requires ValidCidr(c) && ValidCidr(d) && c.prefix >= d.prefix
    requires Contains(c, ip) && Contains(d, ip)
    ensures Inside(c, d)
  {
    var w := Width(c.version);
    var factor := Pow2(c.prefix - d.prefix);
    Pow2Add(w - c.prefix, c.prefix - d.prefix);
    assert Size(d) == Size(c) * factor;
    forall x: Ip | Contains(c, x)
      ensures Contains(d, x)
    {
      DivDiv(x.bits, Size(c), factor);
      DivDiv(ip.bits, Size(c), factor);
    }
  }

  /** Two blocks are nested or disjoint. */
  lemma NestedOrDisjoint(c: Cidr, d: Cidr)
    requires ValidCidr(c) && ValidCidr(d)
    ensures Inside(c, d) || Inside(d, c) || forall ip: Ip :: !(Contains(c, ip) && Contains(d, ip))
  {
    if ip: Ip :| Contains(c, ip) && Contains(d, ip) {
      if c.prefix >= d.prefix {
        SharedMeansInside(c, d, ip);
      } else {
        SharedMeansInside(d, c, ip);
      }
    }
  }

  predicate AnyContains(blocks: seq<Cidr>, ip: Ip)
    requires forall k | 0 <= k < |blocks| :: ValidCidr(blocks[k])
  {
    exists k | 0 <= k < |blocks| :: Contains(blocks[k], ip)
  }

  /** `_find_network`: the first network, in iteration order, with a block that holds the address. */
  function FindNetwork(d: NetDict, ip: Ip): (name: Option<string>)
    requires ValidDict(d)
  {
    if d == [] then None
    else if AnyContains(d[0].1, ip) then Some(d[0].0)
    else FindNetwork(d[1..], ip)
  }

  /** The result is none exactly when no block holds the address; otherwise it names the first network that
      has a block that does. */
  lemma {:induction false} FindNetworkSound(d: NetDict, ip: Ip)
    requires ValidDict(d)
    ensures FindNetwork(d, ip) == None <==> forall i | 0 <= i < |d| :: !AnyContains(d[i].1, ip)
    ensures FindNetwork(d, ip).Some? ==>
              exists i | 0 <= i < |d| :: AnyContains(d[i].1, ip) && FindNetwork(d, ip) == Some(d[i].0)
                                         && forall j | 0 <= j < i :: !AnyContains(d[j].1, ip)
  {
    if d != [] && !AnyContains(d[0].1, ip) {
      var rest := d[1..];
      FindNetworkSound(rest, ip);
      assert forall i | 0 < i < |d| :: d[i] == rest[i - 1];
      if FindNetwork(rest, ip).Some? {
        var i :| 0 <= i < |rest| && AnyContains(rest[i].1, ip) && FindNetwork(rest, ip) == Some(rest[i].0)
                 && forall j | 0 <= j < i :: !AnyContains(rest[j].1, ip);
        assert forall j | 0 <= j < i + 1 :: !AnyContains(d[j].1, ip);
        assert d[i + 1] == rest[i];
      }
    }
  }

  /** The same dictionary built in another insertion order. */
  ghost predicate Reordering(d: NetDict, e: NetDict) { multiset(d) == multiset(e) }

  ghost predicate BlockInsideNetwork(c: Cidr, blocks: seq<Cidr>)
    requires ValidCidr(c) && forall k | 0 <= k < |blocks| :: ValidCidr(blocks[k])
  {
    exists k | 0 <= k < |blocks| :: Inside(c, blocks[k])
  }

  /** No block of one network lies inside a block of another. */
  ghost predicate Separate(d: NetDict)
    requires ValidDict(d)
  {
    forall i, j, k | 0 <= i < |d| && 0 <= j < |d| && i != j && 0 <= k < |d[i].1| ::
      !BlockInsideNetwork(d[i].1[k], d[j].1)
  }

  lemma ReorderingMembers(d: NetDict, e: NetDict)
    requires Reordering(d, e)
    ensures forall x :: x in d <==> x in e
    ensures |d| == |e|
  {
    forall x ensures x in d <==> x in e {
      assert x in d <==> x in multiset(d);
      assert x in e <==> x in multiset(e);
    }
    assert |multiset(d)| == |d| && |multiset(e)| == |e|;
  }

  lemma MultisetTwice(d: NetDict, i: nat, j: nat)
    requires i < j < |d| && d[i] == d[j]
    ensures multiset(d)[d[i]] >= 2
  {
    assert d == d[..j] + d[j..];
    assert multiset(d) == multiset(d[..j]) + multiset(d[j..]);
    assert d[..j][i] == d[i] && d[j..][0] == d[i];
    assert d[i] in multiset(d[..j]) && d[i] in multiset(d[j..]);
  }

  lemma {:induction false} MultisetOnce(d: NetDict, x: (string, seq<Cidr>))
    requires forall i, j | 0 <= i < j < |d| :: d[i] != d[j]
    ensures multiset(d)[x] <= 1
  {
    if d != [] {
      assert d == [d[0]] + d[1..];
      MultisetOnce(d[1..], x);
      if x == d[0] {
        assert x !in d[1..];
        assert x !in multiset(d[1..]);
      }
    }
  }

  lemma ReorderingValid(d: NetDict, e: NetDict)
    requires ValidDict(d) && Reordering(d, e)
    ensures ValidDict(e)
  {
    ReorderingMembers(d, e);
    forall i, j | 0 <= i < j < |e|
      ensures e[i].0 != e[j].0
    {
      if e[i].0 == e[j].0 {
        assert e[i] in d && e[j] in d;
        assert e[i] == e[j];
        MultisetTwice(e, i, j);
        MultisetOnce(d, e[i]);
      }
    }
    forall i, k | 0 <= i < |e| && 0 <= k < |e[i].1|
      ensures ValidCidr(e[i].1[k])
    {
      assert e[i] in d;
    }
  }

  /** In separate networks an address belongs to at most one of them. */
  lemma SeparateUnique(d: NetDict, ip: Ip, i: nat, j: nat)
    requires ValidDict(d) && Separate(d) && i < |d| && j < |d|
    requires AnyContains(d[i].1, ip) && AnyContains(d[j].1, ip)
    ensures i == j
  {
    if i != j {
      var k :| 0 <= k < |d[i].1| && Contains(d[i].1[k], ip);
      var l :| 0 <= l < |d[j].1| && Contains(d[j].1[l], ip);
      assert !BlockInsideNetwork(d[i].1[k], d[j].1) && !BlockInsideNetwork(d[j].1[l], d[i].1);
      NestedOrDisjoint(d[i].1[k], d[j].1[l]);
    }
  }

  lemma SeparateIsOrderFree(d: NetDict, e: NetDict, ip: Ip)
    requires ValidDict(d) && ValidDict(e) && Reordering(d, e) && Separate(d)
    ensures FindNetwork(d, ip) == FindNetwork(e, ip)
  {
    ReorderingMembers(d, e);
    FindNetworkSound(d, ip);
    FindNetworkSound(e, ip);
    if FindNetwork(e, ip).Some? {
      var i :| 0 <= i < |e| && AnyContains(e[i].1, ip) && FindNetwork(e, ip) == Some(e[i].0);
      assert e[i] in d;
      var m :| 0 <= m < |d| && d[m] == e[i];
      var n :| 0 <= n < |d| && AnyContains(d[n].1, ip) && FindNetwork(d, ip) == Some(d[n].0);
      SeparateUnique(d, ip, m, n);
    } else {
      assert forall n | 0 <= n < |d| :: d[n] in e;
    }
  }

  /** The same dictionary with one network moved to the front. */
  function ToFront(d: NetDict, i: nat): (e: NetDict)
    requires i < |d|
    ensures multiset(e) == multiset(d) && e[0] == d[i]
  {
    assert d == d[..i] + [d[i]] + d[i + 1..];
    [d[i]] + d[..i] + d[i + 1..]
  }

  ghost predicate OrderFree(d: NetDict)
    requires ValidDict(d)
  {
    forall e: NetDict, ip: Ip | ValidDict(e) && Reordering(d, e) :: FindNetwork(d, ip) == FindNetwork(e, ip)
  }

  lemma NestedIsOrderDependent(d: NetDict, i: nat, j: nat, k: nat)
    requires ValidDict(d) && i < |d| && j < |d| && i != j && k < |d[i].1|
    requires BlockInsideNetwork(d[i].1[k], d[j].1)
    ensures !OrderFree(d)
  {
    var c := d[i].1[k];
    var ip := Ip(c.version, c.base);
    assert Contains(c, ip);
    var l :| 0 <= l < |d[j].1| && Inside(c, d[j].1[l]);
    assert Contains(d[j].1[l], ip);
    var e, f := ToFront(d, i), ToFront(d, j);
    ReorderingValid(d, e);
    ReorderingValid(d, f);
    assert e[0] == d[i] && f[0] == d[j];
    assert FindNetwork(e, ip) == Some(d[i].0);
    assert FindNetwork(f, ip) == Some(d[j].0);
  }

  /** The lookup ignores the dictionary order exactly when no block of one network lies inside a
      block of another. */
  lemma FindNetworkOrderFree(d: NetDict)
    requires ValidDict(d)
    ensures OrderFree(d) <==> Separate(d)
  {
    if Separate(d) {
      forall e: NetDict, ip: Ip | ValidDict(e) && Reordering(d, e)
        ensures FindNetwork(d, ip) == FindNetwork(e, ip)
      {
        SeparateIsOrderFree(d, e, ip);
      }
    } else {
      var i, j, k :| 0 <= i < |d| && 0 <= j < |d| && i != j && 0 <= k < |d[i].1| &&
                     BlockInsideNetwork(d[i].1[k], d[j].1);
      NestedIsOrderDependent(d, i, j, k);
    }
  }
}
