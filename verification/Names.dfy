/** Sorted lists of distinct names: `sorted(list(x.unique()))` and the key order of a group-by. */
module Names {
  import opened Collections

  /** Lexicographic order by code unit. */
  predicate Less(a: string, b: string) {
    |b| > 0 && (|a| == 0 || a[0] < b[0] || (a[0] == b[0] && Less(a[1..], b[1..])))
  }

  /** The order of strings: a proper prefix first, otherwise the smaller first difference. */
  lemma {:induction false} LessIff(a: string, b: string)
    ensures Less(a, b) <==>
            || (|a| < |b| && a == b[..|a|])
            || exists i | 0 <= i < |a| && i < |b| :: a[..i] == b[..i] && a[i] < b[i]
  {
    if |a| > 0 && |b| > 0 {
      if a[0] == b[0] {
        var c, d := a[1..], b[1..];
        LessIff(c, d);
        assert a == [a[0]] + c && b == [b[0]] + d;
        if |a| < |b| {
          assert a == b[..|a|] <==> c == d[..|c|];
        }
        if i :| 0 <= i < |c| && i < |d| && c[..i] == d[..i] && c[i] < d[i] {
          assert a[..i + 1] == [a[0]] + c[..i] && b[..i + 1] == [b[0]] + d[..i];
        }
        if i :| 0 <= i < |a| && i < |b| && a[..i] == b[..i] && a[i] < b[i] {
          assert a[..i][1..] == c[..i - 1] && b[..i][1..] == d[..i - 1];
        }
      } else {
        if a[0] < b[0] {
          assert a[..0] == b[..0];
        }
      }
    }
  }

  lemma {:induction false} LessTotal(a: string, b: string)
    ensures a == b || Less(a, b) || Less(b, a)
  {
    if |a| > 0 && |b| > 0 && a[0] == b[0] {
      LessTotal(a[1..], b[1..]);
      assert a[1..] == b[1..] ==> a == [a[0]] + a[1..] == [b[0]] + b[1..] == b;
    }
  }

  lemma {:induction false} LessStrict(a: string)
    ensures !Less(a, a)
  {
    if |a| > 0 {
      LessStrict(a[1..]);
    }
  }

  lemma {:induction false} LessTransitive(a: string, b: string, c: string)
    requires Less(a, b) && Less(b, c)
    ensures Less(a, c)
  {
    if |a| > 0 && a[0] == b[0] && b[0] == c[0] {
      LessTransitive(a[1..], b[1..], c[1..]);
    }
  }

  predicate Increasing(xs: seq<string>) {
    forall i, j | 0 <= i < j < |xs| :: Less(xs[i], xs[j])
  }

  lemma IncreasingNoDup(xs: seq<string>)
    requires Increasing(xs)
    ensures NoDup(xs)
  {
    forall i, j | 0 <= i < j < |xs| ensures xs[i] != xs[j] {
      LessStrict(xs[i]);
    }
  }

  function Insert(x: string, xs: seq<string>): (ys: seq<string>) {
    if xs == [] then [x]
    else if x == xs[0] then xs
    else if Less(x, xs[0]) then [x] + xs
    else [xs[0]] + Insert(x, xs[1..])
  }

  lemma {:induction false} InsertSorted(x: string, xs: seq<string>)
    requires Increasing(xs)
    ensures Increasing(Insert(x, xs))
    ensures forall y :: y in Insert(x, xs) <==> y == x || y in xs
  {
    if xs != [] && x != xs[0] {
      LessTotal(x, xs[0]);
      if Less(x, xs[0]) {
        forall j | 0 < j < |xs| ensures Less(x, xs[j]) {
          LessTransitive(x, xs[0], xs[j]);
        }
      } else {
        InsertSorted(x, xs[1..]);
        assert forall y | y in Insert(x, xs[1..]) :: Less(xs[0], y);
      }
    }
  }

  /** The distinct names of a list, in order. */
  function SortedUnique(names: seq<string>): (sorted: seq<string>) {
    if names == [] then [] else Insert(names[0], SortedUnique(names[1..]))
  }

  lemma {:induction false} SortedUniqueSpec(names: seq<string>)
    ensures Increasing(SortedUnique(names)) && NoDup(SortedUnique(names))
    ensures forall y :: y in SortedUnique(names) <==> y in names
  {
    if names != [] {
      SortedUniqueSpec(names[1..]);
      InsertSorted(names[0], SortedUnique(names[1..]));
    }
    IncreasingNoDup(SortedUnique(names));
  }

  /** The keys of a dictionary built from a list with repetitions, in order of first appearance. */
  function DictKeys(names: seq<string>): (keys: seq<string>) {
    if names == [] then []
    else
      var keys := DictKeys(names[..|names| - 1]);
      var last := names[|names| - 1];
      if last in keys then keys else keys + [last]
  }

  lemma {:induction false} DictKeysSpec(names: seq<string>)
    ensures NoDup(DictKeys(names))
    ensures forall y :: y in DictKeys(names) <==> y in names
  {
    if names != [] {
      DictKeysSpec(names[..|names| - 1]);
      assert names == names[..|names| - 1] + [names[|names| - 1]];
    }
  }

  /** A key that comes earlier occurs earlier in the list than any occurrence of a later one. */
  lemma {:induction false} DictKeysInOrder(names: seq<string>, i: nat, j: nat)
    requires i < j < |DictKeys(names)|
    ensures exists p | 0 <= p < |names| :: names[p] == DictKeys(names)[i] && DictKeys(names)[j] !in names[..p + 1]
  {
    var init, last := names[..|names| - 1], names[|names| - 1];
    DictKeysSpec(init);
    var keys := DictKeys(init);
    if j < |keys| {
      DictKeysInOrder(init, i, j);
      var p :| 0 <= p < |init| && init[p] == keys[i] && keys[j] !in init[..p + 1];
      assert names[..p + 1] == init[..p + 1];
    } else {
      assert keys[i] in init;
      var p :| 0 <= p < |init| && init[p] == keys[i];
      assert names[..p + 1] == init[..p + 1];
    }
  }
}
