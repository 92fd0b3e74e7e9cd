/** The memoising reader proxy on the heap (`ReportBuilder` in wotemu/report/builder.py), with clients
    that keep and change the results they get back. Every operation is proved to take the matching
    step of the session model. */
module ReaderCache {
  import opened Collections
  import opened CacheModel

  /** A mutable Python object held in a cell. */
  class Box {
    var content: int

    constructor (content: int)
      ensures this.content == content
    {
      this.content := content;
    }
  }

  datatype Cell = Scalar(n: int) | Object(box: Box)

  /** A mutable result: a DataFrame, or any other object. */
  class Result {
    const kind: Kind
    var cells: seq<Cell>

    constructor (kind: Kind, cells: seq<Cell>)
      ensures this.kind == kind && this.cells == cells
    {
      this.kind, this.cells := kind, cells;
    }

    ghost function Boxes(): set<Box>
      reads this
    {
      set i | 0 <= i < |cells| && cells[i].Object? :: cells[i].box
    }

    ghost predicate DistinctBoxes()
      reads this
    {
      forall i, j | 0 <= i < j < |cells| && cells[i].Object? && cells[j].Object? :: cells[i].box != cells[j].box
    }

    function View(): Value
      reads this, Boxes()
    {
      Value(kind, seq(|cells|, i requires 0 <= i < |cells| reads this, Boxes() =>
        match cells[i]
        case Scalar(n) => ScalarValue(n)
        case Object(b) => ObjectValue(b.content)))
    }
  }

  /** Builds a new result with new objects: what a call of the reader answers, and `deepcopy`. */
  method Materialise(v: Value) returns (r: Result)
    ensures fresh(r) && fresh(r.Boxes()) && r.DistinctBoxes() && r.View() == v
  {
    var cells: seq<Cell> := [];
    for i := 0 to |v.cells|
      invariant |cells| == i
      invariant forall j | 0 <= j < i ::
                  match v.cells[j]
                  case ScalarValue(n) => cells[j] == Scalar(n)
                  case ObjectValue(x) => cells[j].Object? && fresh(cells[j].box) && cells[j].box.content == x
      invariant forall j, k | 0 <= j < k < i && cells[j].Object? && cells[k].Object? :: cells[j].box != cells[k].box
    {
      match v.cells[i] {
        case ScalarValue(n) =>
          cells := cells + [Scalar(n)];
        case ObjectValue(x) =>
          var b := new Box(x);
          cells := cells + [Object(b)];
      }
    }
    r := new Result(v.kind, cells);
  }

  ghost function Flatten(m: map<string, map<Params, Result>>): map<Query, Result> {
    map q: Query | q.0 in m && q.1 in m[q.0] && q in Pairs(m) :: m[q.0][q.1]
  }

  ghost function Pairs(m: map<string, map<Params, Result>>): set<Query> {
    set f, k | f in m && k in m[f] :: (f, k)
  }

  lemma FlattenAt(m: map<string, map<Params, Result>>, q: Query)
    ensures q in Flatten(m) <==> q.0 in m && q.1 in m[q.0]
    ensures q in Flatten(m) ==> Flatten(m)[q] == m[q.0][q.1]
  {
    if q.0 in m && q.1 in m[q.0] {
      assert (q.0, q.1) in Pairs(m);
    }
  }

  lemma FlattenPut(m: map<string, map<Params, Result>>, n: map<string, map<Params, Result>>, q: Query, r: Result)
    requires var inner: map<Params, Result> := if q.0 in m then m[q.0] else map[]; n == m[q.0 := inner[q.1 := r]]
    ensures Flatten(n) == Flatten(m)[q := r]
  {
    forall p: Query
      ensures p in Flatten(n) <==> p in Flatten(m)[q := r]
      ensures p in Flatten(n) ==> Flatten(n)[p] == Flatten(m)[q := r][p]
    {
      FlattenAt(m, p);
      FlattenAt(n, p);
    }
  }

  class ReportBuilder {
    const reader: Reader
    var cache: map<string, map<Params, Result>>
    var useCache: bool
    ghost var evaluated: seq<Query>

    constructor (reader: Reader, useCache: bool)
      ensures this.reader == reader && this.useCache == useCache && cache == map[] && evaluated == []
    {
      this.reader, this.useCache := reader, useCache;
      cache, evaluated := map[], [];
    }

    /** The two-level dictionary as one. */
    ghost function Entries(): map<Query, Result>
      reads this`cache
    {
      Flatten(cache)
    }

    /** `_cache_get`; none stands for `CacheMiss`. */
    method CacheGet(q: Query) returns (r: Option<Result>)
      ensures r == if q in Entries() then Some(Entries()[q]) else None
    {
      FlattenAt(cache, q);
      if q.0 !in cache || q.1 !in cache[q.0] {
        return None;
      }
      return Some(cache[q.0][q.1]);
    }

    /** `_cache_set`. */
    method CacheSet(q: Query, result: Result)
      modifies this`cache
      ensures Entries() == old(Entries())[q := result]
    {
      ghost var before := cache;
      cache := cache[q.0 := if q.0 in cache then cache[q.0] else map[]];
      cache := cache[q.0 := cache[q.0][q.1 := result]];
      FlattenPut(before, cache, q, result);
    }

    /** A DataFrame copy shares the objects in the cells, any other copy shares nothing. */
    ghost predicate IsCopy(c: Result, r: Result)
      reads c, c.Boxes(), r, r.Boxes()
    {
      && c != r && c.kind == r.kind && c.View() == r.View()
      && (r.kind == Pandas ==> c.cells == r.cells)
      && (r.kind == Plain ==> c.DistinctBoxes() && c.Boxes() !! r.Boxes())
    }

    /** `_get_copy`. */
    method GetCopy(r: Result) returns (c: Result)
      ensures fresh(c) && IsCopy(c, r)
      ensures r.kind == Plain ==> fresh(c.Boxes())
    {
      if r.kind == Pandas {
        c := new Result(Pandas, r.cells);
      } else {
        c := Materialise(r.View());
      }
    }

    /** `_reader_exec`. None stands for an exception raised by the reader. */
    method ReaderExec(q: Query) returns (r: Option<Result>)
      modifies this`cache, this`evaluated
      ensures old(useCache && q in Entries()) ==>
                && Entries() == old(Entries()) && evaluated == old(evaluated) && r.Some?
      ensures !old(useCache && q in Entries()) ==>
                && evaluated == old(evaluated) + [q] && (r.Some? <==> reader(q).Some?)
                && (!useCache || r.None? ==> Entries() == old(Entries()))
                && (useCache && r.Some? ==>
                      && q in Entries() && Entries() == old(Entries())[q := Entries()[q]] && fresh(Entries()[q])
                      && fresh(Entries()[q].Boxes()) && Entries()[q].DistinctBoxes()
                      && Entries()[q].View() == reader(q).value)
      ensures r.Some? ==> fresh(r.value)
      ensures r.Some? && useCache ==>
                && q in Entries() && IsCopy(r.value, Entries()[q])
                && (r.value.kind == Plain ==> fresh(r.value.Boxes()))
      ensures r.Some? && !useCache ==>
                && fresh(r.value.Boxes()) && r.value.DistinctBoxes() && r.value.View() == reader(q).value
    {
      if !useCache {
        r := Evaluate(q);
        return;
      }
      var result := CacheGet(q);
      if result.None? {
        result := Evaluate(q);
        if result.None? {
          return None;
        }
        CacheSet(q, result.value);
      }
      var c := GetCopy(result.value);
      return Some(c);
    }

    /** `await func(*args, **kwargs)`: the reader answers a new object every time. */
    method Evaluate(q: Query) returns (r: Option<Result>)
      modifies this`evaluated
      ensures evaluated == old(evaluated) + [q]
      ensures r.Some? <==> reader(q).Some?
      ensures r.Some? ==> fresh(r.value) && fresh(r.value.Boxes()) && r.value.DistinctBoxes()
                          && r.value.View() == reader(q).value
    {
      evaluated := evaluated + [q];
      if reader(q).None? {
        return None;
      }
      var result := Materialise(reader(q).value);
      return Some(result);
    }

    method ResetCache()
      modifies this`cache
      ensures Entries() == map[]
    {
      cache := map[];
    }
  }
}
