/** The memoising reader proxy of the report builder (`_reader_exec` in wotemu/report/builder.py),
    as a state machine over whole sessions of its clients. A result has cells; a cell may hold a
    Python object of its own (a dictionary, say). Copying a DataFrame copies its cells but not the
    objects in them, whereas `deepcopy` copies everything. */
module CacheModel {
  import opened Collections

  datatype Kind = Pandas | Plain

  datatype CellValue = ScalarValue(n: int) | ObjectValue(content: int)

  /** What a result looks like. */
  datatype Value = Value(kind: Kind, cells: seq<CellValue>)

  /** Positional and keyword arguments; the order of keyword arguments does not matter. */
  datatype Params = Params(args: seq<string>, kwargs: map<string, string>)

  type Query = (string, Params)

  /** A deterministic reader: the value each call answers, or none when it raises. */
  type Reader = Query -> Option<Value>

  /** A cell holds a number or refers to an object, which any number of cells may refer to. */
  datatype Slot = Num(n: int) | Ref(id: nat)

  datatype Item = Item(kind: Kind, cells: seq<Slot>)

  /** Where a client takes the content of a cell from. */
  datatype Source = Number(n: int) | NewObject(content: int) | CellOf(handle: nat, cell: nat)

  /** Clients call, give a result of theirs any cells (added, removed, moved or shared, with objects of their
      own or of any result), change objects, toggle the cache and reset it. */
  datatype Command =
    | Call(query: Query)
    | Edit(handle: nat, sources: seq<Source>)
    | WriteObject(handle: nat, cell: nat, content: int)
    | UseCache(on: bool)
    | Reset

  /** `contents` are the objects, `handles` the results clients hold. `evaluated` lists the calls that reached
      the reader and `returned` what each call answered. */
  datatype State = State(cache: map<Query, Item>, useCache: bool, contents: seq<int>, handles: seq<Item>,
                         evaluated: seq<Query>, returned: seq<Option<Value>>)

  const INITIAL := State(map[], true, [], [], [], [])

  /********** Objects **********/

  function ViewSlot(c: Slot, contents: seq<int>): CellValue {
    match c
    case Num(n) => ScalarValue(n)
    case Ref(id) => ObjectValue(if id < |contents| then contents[id] else 0)
  }

  function View(o: Item, contents: seq<int>): (v: Value)
    ensures v.kind == o.kind && |v.cells| == |o.cells|
    ensures forall i | 0 <= i < |o.cells| :: v.cells[i] == ViewSlot(o.cells[i], contents)
  {
    Value(o.kind, seq(|o.cells|, i requires 0 <= i < |o.cells| => ViewSlot(o.cells[i], contents)))
  }

  /** The objects of a value, in order. */
  function NewContents(cells: seq<CellValue>): seq<int> {
    if cells == [] then []
    else
      var init, last := NewContents(cells[..|cells| - 1]), cells[|cells| - 1];
      if last.ObjectValue? then init + [last.content] else init
  }

  /** The cells of a new result whose objects are numbered from `n`. */
  function Slots(cells: seq<CellValue>, n: nat): (r: seq<Slot>)
    ensures |r| == |cells|
  {
    if cells == [] then []
    else
      var init, last := cells[..|cells| - 1], cells[|cells| - 1];
      Slots(init, n) + [if last.ObjectValue? then Ref(n + |NewContents(init)|) else Num(last.n)]
  }

  /** A new result with new objects. */
  function Stored(v: Value, contents: seq<int>): Item { Item(v.kind, Slots(v.cells, |contents|)) }

  function WithObjects(v: Value, contents: seq<int>): seq<int> { contents + NewContents(v.cells) }

  predicate Between(c: Slot, low: nat, high: nat) { c.Ref? ==> low <= c.id < high }

  lemma {:induction false} SlotsAre(cells: seq<CellValue>, contents: seq<int>, i: nat)
    requires i < |cells|
    ensures ViewSlot(Slots(cells, |contents|)[i], contents + NewContents(cells)) == cells[i]
    ensures Slots(cells, |contents|)[i].Ref? <==> cells[i].ObjectValue?
    ensures Between(Slots(cells, |contents|)[i], |contents|, |contents| + |NewContents(cells)|)
  {
    var init, last := cells[..|cells| - 1], cells[|cells| - 1];
    var n := |contents|;
    var before, after := contents + NewContents(init), contents + NewContents(cells);
    assert Slots(cells, n) == Slots(init, n) + [if last.ObjectValue? then Ref(|before|) else Num(last.n)];
    assert after == if last.ObjectValue? then before + [last.content] else before;
    if i < |cells| - 1 {
      SlotsAre(init, contents, i);
      assert init[i] == cells[i] && Slots(cells, n)[i] == Slots(init, n)[i];
    } else {
      assert cells[i] == last;
    }
  }

  lemma StoredView(v: Value, contents: seq<int>)
    ensures View(Stored(v, contents), WithObjects(v, contents)) == v
    ensures forall c | c in Stored(v, contents).cells :: Between(c, |contents|, |WithObjects(v, contents)|)
    ensures (forall c | c in v.cells :: c.ScalarValue?) ==> forall c | c in Stored(v, contents).cells :: c.Num?
  {
    forall i | 0 <= i < |v.cells|
      ensures ViewSlot(Stored(v, contents).cells[i], WithObjects(v, contents)) == v.cells[i]
      ensures Between(Stored(v, contents).cells[i], |contents|, |WithObjects(v, contents)|)
      ensures Stored(v, contents).cells[i].Ref? <==> v.cells[i].ObjectValue?
    {
      SlotsAre(v.cells, contents, i);
    }
    assert View(Stored(v, contents), WithObjects(v, contents)).cells == v.cells;
    assert forall i | 0 <= i < |v.cells| :: v.cells[i] in v.cells;
  }

  /********** The proxy **********/

  /** `_get_copy`: a copy of a DataFrame refers to the same objects. */
  function CopyOf(o: Item, contents: seq<int>): Item {
    if o.kind == Pandas then o else Stored(View(o, contents), contents)
  }

  function CopyContents(o: Item, contents: seq<int>): seq<int> {
    if o.kind == Pandas then contents else WithObjects(View(o, contents), contents)
  }

  /** A client is given a result. */
  function Give(s: State, o: Item, contents: seq<int>): State {
    s.(contents := contents, handles := s.handles + [o], returned := s.returned + [Some(View(o, contents))])
  }

  function GiveCopy(s: State, o: Item): State { Give(s, CopyOf(o, s.contents), CopyContents(o, s.contents)) }

  /** The reader is called. */
  function Evaluate(s: State, q: Query): State { s.(evaluated := s.evaluated + [q]) }

  /** The reader's answer is stored in the cache. */
  function Cache(s: State, q: Query, v: Value): State {
    s.(contents := WithObjects(v, s.contents), cache := s.cache[q := Stored(v, s.contents)])
  }

  /** `_reader_exec`. */
  function Exec(reader: Reader, s: State, q: Query): State {
    if s.useCache && q in s.cache then GiveCopy(s, s.cache[q])
    else
      match reader(q)
      case None => Evaluate(s, q).(returned := s.returned + [None])
      case Some(v) =>
        if s.useCache then GiveCopy(Cache(Evaluate(s, q), q, v), Stored(v, s.contents))
        else Give(Evaluate(s, q), Stored(v, s.contents), WithObjects(v, s.contents))
  }

  /********** Clients **********/

  predicate InHandle(s: State, handle: nat, cell: nat) { handle < |s.handles| && cell < |s.handles[handle].cells| }

  function SourceContents(sources: seq<Source>): seq<int> {
    if sources == [] then []
    else
      var init, last := SourceContents(sources[..|sources| - 1]), sources[|sources| - 1];
      if last.NewObject? then init + [last.content] else init
  }

  /** The cell a source gives; a cell that does not exist gives zero. */
  function Pick(s: State, c: Source, next: nat): Slot {
    match c
    case Number(n) => Num(n)
    case NewObject(_) => Ref(next)
    case CellOf(h, i) => if InHandle(s, h, i) then s.handles[h].cells[i] else Num(0)
  }

  function Picks(s: State, sources: seq<Source>): (r: seq<Slot>)
    ensures |r| == |sources|
  {
    if sources == [] then []
    else
      var init, last := sources[..|sources| - 1], sources[|sources| - 1];
      Picks(s, init) + [Pick(s, last, |s.contents| + |SourceContents(init)|)]
  }

  function Step(reader: Reader, s: State, c: Command): State {
    match c
    case Call(q) => Exec(reader, s, q)
    case UseCache(on) => s.(useCache := on)
    case Reset => s.(cache := map[])
    case Edit(h, sources) =>
      if h < |s.handles|
      then s.(contents := s.contents + SourceContents(sources),
              handles := s.handles[h := s.handles[h].(cells := Picks(s, sources))])
      else s
    case WriteObject(h, i, x) =>
      if InHandle(s, h, i) && s.handles[h].cells[i].Ref? && s.handles[h].cells[i].id < |s.contents|
      then s.(contents := s.contents[s.handles[h].cells[i].id := x])
      else s
  }

  function Run(reader: Reader, s: State, session: seq<Command>): State {
    if session == [] then s
    else Step(reader, Run(reader, s, session[..|session| - 1]), session[|session| - 1])
  }

  /** What the calls of a session would answer without the proxy. */
  function Direct(reader: Reader, session: seq<Command>): seq<Option<Value>> {
    if session == [] then []
    else
      var rest := Direct(reader, session[..|session| - 1]);
      match session[|session| - 1]
      case Call(q) => rest + [reader(q)]
      case _ => rest
  }

  /********** Transparency **********/

  /** No DataFrame the reader answers has an object in a cell. */
  ghost predicate FlatFrames(reader: Reader) {
    forall q: Query | reader(q).Some? && reader(q).value.kind == Pandas ::
      forall c | c in reader(q).value.cells :: c.ScalarValue?
  }

  ghost predicate Transparent(reader: Reader) {
    forall session :: Run(reader, INITIAL, session).returned == Direct(reader, session)
  }

  predicate ItemIn(o: Item, n: nat) { forall c | c in o.cells :: Between(c, 0, n) }

  /** Every reference is to an object. */
  ghost predicate InScope(s: State) {
    && (forall q | q in s.cache :: ItemIn(s.cache[q], |s.contents|))
    && (forall o | o in s.handles :: ItemIn(o, |s.contents|))
  }

  /** No cell of one refers to an object of the other. */
  ghost predicate Apart(o: Item, p: Item) {
    forall c | c in o.cells && c.Ref? :: c !in p.cells
  }

  /** The cache holds direct answers, in objects that no client can reach. */
  ghost predicate Faithful(reader: Reader, s: State) {
    && InScope(s)
    && (forall q | q in s.cache :: reader(q) == Some(View(s.cache[q], s.contents)))
    && (forall q, o | q in s.cache && o in s.handles :: Apart(s.cache[q], o))
  }

  lemma ViewKept(o: Item, contents: seq<int>, more: seq<int>)
    requires ItemIn(o, |contents|)
    ensures View(o, contents + more) == View(o, contents) && ItemIn(o, |contents + more|)
  {
    forall i | 0 <= i < |o.cells| ensures ViewSlot(o.cells[i], contents + more) == ViewSlot(o.cells[i], contents) {
      assert o.cells[i] in o.cells;
    }
  }

  lemma NewIsApart(o: Item, p: Item, n: nat, high: nat)
    requires ItemIn(o, n) && forall c | c in p.cells :: Between(c, n, high)
    ensures Apart(o, p) && Apart(p, o)
  {
  }

  /** A new object or a flat result changes nothing for the cache. */
  lemma FaithfulGive(reader: Reader, s: State, o: Item, more: seq<int>)
    requires Faithful(reader, s) && forall c | c in o.cells :: Between(c, |s.contents|, |s.contents + more|)
    ensures Faithful(reader, Give(s, o, s.contents + more))
  {
    forall q | q in s.cache
      ensures View(s.cache[q], s.contents + more) == View(s.cache[q], s.contents) && ItemIn(s.cache[q], |s.contents + more|)
      ensures Apart(s.cache[q], o)
    {
      ViewKept(s.cache[q], s.contents, more);
      NewIsApart(s.cache[q], o, |s.contents|, |s.contents + more|);
    }
    hide View, Apart;
  }

  lemma FaithfulGiveCopy(reader: Reader, s: State, q: Query)
    requires FlatFrames(reader) && Faithful(reader, s) && q in s.cache
    ensures Faithful(reader, GiveCopy(s, s.cache[q]))
    ensures GiveCopy(s, s.cache[q]).returned == s.returned + [reader(q)]
  {
    var o := s.cache[q];
    var v := View(o, s.contents);
    if o.kind == Pandas {
      forall c | c in o.cells ensures c.Num? {
        var i :| 0 <= i < |o.cells| && o.cells[i] == c;
        assert v.cells[i] in v.cells;
      }
      assert s.contents + [] == s.contents;
      FaithfulGive(reader, s, o, []);
    } else {
      StoredView(v, s.contents);
      FaithfulGive(reader, s, Stored(v, s.contents), NewContents(v.cells));
    }
  }

  lemma FaithfulCache(reader: Reader, s: State, q: Query, v: Value)
    requires Faithful(reader, s) && reader(q) == Some(v)
    ensures Faithful(reader, Cache(s, q, v))
  {
    var o := Stored(v, s.contents);
    StoredView(v, s.contents);
    var more := NewContents(v.cells);
    forall p | p in s.cache
      ensures View(s.cache[p], s.contents + more) == View(s.cache[p], s.contents) && ItemIn(s.cache[p], |s.contents + more|)
    {
      ViewKept(s.cache[p], s.contents, more);
    }
    forall p | p in s.handles ensures Apart(o, p) {
      NewIsApart(p, o, |s.contents|, |WithObjects(v, s.contents)|);
    }
    hide View, Apart, Stored;
  }

  lemma ExecFaithful(reader: Reader, s: State, q: Query)
    requires FlatFrames(reader) && Faithful(reader, s)
    ensures Faithful(reader, Exec(reader, s, q)) && Exec(reader, s, q).returned == s.returned + [reader(q)]
  {
    hide FlatFrames;
    var t := Evaluate(s, q);
    if s.useCache && q in s.cache {
      FaithfulGiveCopy(reader, s, q);
    } else if reader(q).Some? {
      var v := reader(q).value;
      StoredView(v, s.contents);
      if s.useCache {
        FaithfulCache(reader, t, q, v);
        FaithfulGiveCopy(reader, Cache(t, q, v), q);
      } else {
        FaithfulGive(reader, t, Stored(v, s.contents), NewContents(v.cells));
      }
    }
  }

  /** The cells a client picks are its own, or new. */
  lemma {:induction false} PicksAre(s: State, sources: seq<Source>, i: nat)
    requires i < |sources|
    ensures var c := Picks(s, sources)[i];
            || c.Num?
            || Between(c, |s.contents|, |s.contents| + |SourceContents(sources)|)
            || exists o :: o in s.handles && c in o.cells
  {
    if i < |sources| - 1 {
      PicksAre(s, sources[..|sources| - 1], i);
    }
  }

  lemma EditFaithful(reader: Reader, s: State, h: nat, sources: seq<Source>)
    requires Faithful(reader, s)
    ensures Faithful(reader, Step(reader, s, Edit(h, sources)))
  {
    if h < |s.handles| {
      var t := Step(reader, s, Edit(h, sources));
      var o := t.handles[h];
      forall c | c in o.cells
        ensures Between(c, 0, |t.contents|) && forall q | q in s.cache && c.Ref? :: c !in s.cache[q].cells
      {
        var i :| 0 <= i < |o.cells| && o.cells[i] == c;
        PicksAre(s, sources, i);
      }
      var more := SourceContents(sources);
      forall q | q in s.cache
        ensures View(s.cache[q], s.contents + more) == View(s.cache[q], s.contents) && ItemIn(s.cache[q], |s.contents + more|)
        ensures Apart(s.cache[q], o)
      {
        ViewKept(s.cache[q], s.contents, more);
      }
      hide View, Apart, Picks;
      assert forall p | p in t.handles :: p == o || p in s.handles;
    }
  }

  lemma WriteFaithful(reader: Reader, s: State, h: nat, i: nat, x: int)
    requires Faithful(reader, s)
    ensures Faithful(reader, Step(reader, s, WriteObject(h, i, x)))
  {
    var t := Step(reader, s, WriteObject(h, i, x));
    forall q | q in s.cache ensures View(s.cache[q], t.contents) == View(s.cache[q], s.contents) {
      if InHandle(s, h, i) {
        assert s.handles[h] in s.handles && Apart(s.cache[q], s.handles[h]);
        forall j | 0 <= j < |s.cache[q].cells|
          ensures ViewSlot(s.cache[q].cells[j], t.contents) == ViewSlot(s.cache[q].cells[j], s.contents)
        {
          assert s.cache[q].cells[j] in s.cache[q].cells && s.handles[h].cells[i] in s.handles[h].cells;
        }
      }
    }
  }

  lemma StepFaithful(reader: Reader, s: State, c: Command)
    requires FlatFrames(reader) && Faithful(reader, s)
    ensures Faithful(reader, Step(reader, s, c))
    ensures Step(reader, s, c).returned == s.returned + if c.Call? then [reader(c.query)] else []
  {
    match c
    case Call(q) => ExecFaithful(reader, s, q);
    case Edit(h, sources) => EditFaithful(reader, s, h, sources);
    case WriteObject(h, i, x) => WriteFaithful(reader, s, h, i, x);
    case _ =>
  }

  lemma {:induction false} RunFaithful(reader: Reader, session: seq<Command>)
    requires FlatFrames(reader)
    ensures Faithful(reader, Run(reader, INITIAL, session))
    ensures Run(reader, INITIAL, session).returned == Direct(reader, session)
  {
    if session != [] {
      hide Faithful, Step, FlatFrames;
      var init := session[..|session| - 1];
      RunFaithful(reader, init);
      StepFaithful(reader, Run(reader, INITIAL, init), session[|session| - 1]);
    } else {
      InitialFaithful(reader);
    }
  }

  lemma InitialFaithful(reader: Reader)
    ensures Faithful(reader, INITIAL)
  {
  }

  /** Call, change an object in the answer, call again. */
  function Probe(q: Query, i: nat, x: int): seq<Command> { [Call(q), WriteObject(0, i, x), Call(q)] }

  lemma ProbeLeaks(reader: Reader, q: Query, i: nat)
    requires reader(q).Some? && reader(q).value.kind == Pandas
    requires i < |reader(q).value.cells| && reader(q).value.cells[i].ObjectValue?
    ensures var x := reader(q).value.cells[i].content + 1;
            Run(reader, INITIAL, Probe(q, i, x)).returned != Direct(reader, Probe(q, i, x))
  {
    hide Slots, NewContents, Run, Step;
    var v := reader(q).value;
    var o, contents, x := Stored(v, []), WithObjects(v, []), v.cells[i].content + 1;
    StoredView(v, []);
    SlotsAre(v.cells, [], i);
    var id := o.cells[i].id;
    assert o.cells[i] in o.cells;
    var session := Probe(q, i, x);
    assert session[..2] == [Call(q), WriteObject(0, i, x)];
    assert session[..2][..1] == [Call(q)] && session[..2][..1][..0] == [];
    ProbeAnswers(reader, q, i, x);
    assert Direct(reader, session[..2][..1]) == [reader(q)];
    assert Direct(reader, session) == [reader(q), reader(q)];
    assert View(o, contents[id := x]).cells[i] == ObjectValue(x);
  }

  /** The second answer shows the client's change. */
  lemma ProbeAnswers(reader: Reader, q: Query, i: nat, x: int)
    requires reader(q).Some? && reader(q).value.kind == Pandas && i < |reader(q).value.cells|
    requires var o := Stored(reader(q).value, []);
             o.cells[i].Ref? && o.cells[i].id < |WithObjects(reader(q).value, [])|
    ensures var o, contents := Stored(reader(q).value, []), WithObjects(reader(q).value, []);
            Run(reader, INITIAL, Probe(q, i, x)).returned == [Some(View(o, contents)), Some(View(o, contents[o.cells[i].id := x]))]
  {
    hide Slots, NewContents, View;
    var session := Probe(q, i, x);
    var s1 := Step(reader, INITIAL, Call(q));
    var s2 := Step(reader, s1, WriteObject(0, i, x));
    assert session[..2] == [Call(q), WriteObject(0, i, x)];
    assert session[..2][..1] == [Call(q)] && session[..2][..1][..0] == [];
    assert Run(reader, INITIAL, session[..2][..1]) == s1;
    assert Run(reader, INITIAL, session[..2]) == s2;
    assert Run(reader, INITIAL, session) == Step(reader, s2, Call(q));
  }

  /** The proxy is transparent (every call answers what a direct call would, over every sequence of
      calls, changes to returned results, cache toggles and resets) exactly when no DataFrame holds
      objects. */
  lemma TransparentIffFlat(reader: Reader)
    ensures Transparent(reader) <==> FlatFrames(reader)
  {
    if FlatFrames(reader) {
      forall session ensures Run(reader, INITIAL, session).returned == Direct(reader, session) {
        RunFaithful(reader, session);
      }
    } else {
      var q: Query :| reader(q).Some? && reader(q).value.kind == Pandas &&
                      !(forall c | c in reader(q).value.cells :: c.ScalarValue?);
      var i :| 0 <= i < |reader(q).value.cells| && reader(q).value.cells[i].ObjectValue?;
      ProbeLeaks(reader, q, i);
    }
  }

  /********** Evaluation **********/

  /** No reset, and caching stays on. */
  predicate Cached(session: seq<Command>) {
    forall c | c in session :: c != Reset && c != UseCache(false)
  }

  ghost predicate OnceEach(reader: Reader, before: State, s: State) {
    && s.useCache && before.evaluated <= s.evaluated
    && (forall q | q in before.cache :: q in s.cache)
    && (forall j | |before.evaluated| <= j < |s.evaluated| && reader(s.evaluated[j]).Some? ::
          s.evaluated[j] in s.cache && s.evaluated[j] !in before.cache)
    && (forall i, j | |before.evaluated| <= i < j < |s.evaluated| && reader(s.evaluated[j]).Some? ::
          s.evaluated[i] != s.evaluated[j])
  }

  lemma StepOnce(reader: Reader, before: State, s: State, c: Command)
    requires OnceEach(reader, before, s) && c != Reset && c != UseCache(false)
    ensures OnceEach(reader, before, Step(reader, s, c))
  {
    var t := Step(reader, s, c);
    assert forall q | q in s.cache :: q in t.cache;
    assert t.evaluated == s.evaluated || (c.Call? && t.evaluated == s.evaluated + [c.query] && c.query !in s.cache);
  }

  /** While caching is on and not reset, from any state, every call that answers is evaluated at most
      once, and not at all when it was cached before. Calls that raise are not cached. */
  lemma {:induction false} EvaluatedOnce(reader: Reader, s: State, session: seq<Command>)
    requires s.useCache && Cached(session)
    ensures OnceEach(reader, s, Run(reader, s, session))
  {
    if session != [] {
      var init, last := session[..|session| - 1], session[|session| - 1];
      assert session == init + [last];
      assert forall c | c in init :: c in session;
      assert last in session;
      EvaluatedOnce(reader, s, init);
      StepOnce(reader, s, Run(reader, s, init), last);
    }
  }
}
