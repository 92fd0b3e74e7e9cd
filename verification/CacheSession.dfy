/** A report builder together with its clients, who keep every result they are given and change cells
    and objects at will. The model's numbered objects stand for the boxes on the heap; each operation
    takes exactly the step of the session model, aliasing included. */
module CacheSession {
  import opened Collections
  import opened CacheModel
  import opened ReaderCache

  /** The cell that a model cell stands for. */
  function CellOfSlot(c: Slot, boxes: seq<Box>): Cell {
    match c
    case Num(n) => Scalar(n)
    case Ref(id) => if id < |boxes| then Object(boxes[id]) else Scalar(0)
  }

  function CellsOf(cells: seq<Slot>, boxes: seq<Box>): (r: seq<Cell>)
    ensures |r| == |cells|
  {
    seq(|cells|, i requires 0 <= i < |cells| => CellOfSlot(cells[i], boxes))
  }

  ghost predicate Shows(r: Result, o: Item, boxes: seq<Box>)
    reads r
  {
    r.kind == o.kind && r.cells == CellsOf(o.cells, boxes)
  }

  /** The boxes are different and hold the contents of the model's objects. */
  ghost predicate Holding(boxes: seq<Box>, contents: seq<int>)
    reads boxes
  {
    && |boxes| == |contents|
    && (forall i, j | 0 <= i < j < |boxes| :: boxes[i] != boxes[j])
    && (forall i | 0 <= i < |boxes| :: boxes[i].content == contents[i])
  }

  /** Cache entries, client results and objects are those of the model, and every result is one of its own. */
  ghost predicate Linked(entries: map<Query, Result>, handles: seq<Result>, boxes: seq<Box>, s: State)
    reads entries.Values, handles, boxes
  {
    && Holding(boxes, s.contents) && InScope(s)
    && entries.Keys == s.cache.Keys && (forall q | q in entries :: Shows(entries[q], s.cache[q], boxes))
    && |handles| == |s.handles| && (forall h | 0 <= h < |handles| :: Shows(handles[h], s.handles[h], boxes))
    && (forall g, h | 0 <= g < h < |handles| :: handles[g] != handles[h])
    && (forall q, h | q in entries && 0 <= h < |handles| :: entries[q] != handles[h])
  }

  /********** New results **********/

  /** The boxes of a result, in order. */
  function BoxesOf(cells: seq<Cell>): seq<Box> {
    if cells == [] then []
    else
      var init, last := BoxesOf(cells[..|cells| - 1]), cells[|cells| - 1];
      if last.Object? then init + [last.box] else init
  }

  /** The cells look like a value. */
  ghost predicate LooksLike(cells: seq<Cell>, vs: seq<CellValue>)
    reads set i | 0 <= i < |cells| && cells[i].Object? :: cells[i].box
  {
    |cells| == |vs| && forall i | 0 <= i < |vs| ::
      match vs[i]
      case ScalarValue(n) => cells[i] == Scalar(n)
      case ObjectValue(x) => cells[i].Object? && cells[i].box.content == x
  }

  lemma CellsKept(cells: seq<Slot>, boxes: seq<Box>, more: seq<Box>)
    requires forall c | c in cells :: Between(c, 0, |boxes|)
    ensures CellsOf(cells, boxes + more) == CellsOf(cells, boxes)
  {
    forall i | 0 <= i < |cells| ensures CellOfSlot(cells[i], boxes + more) == CellOfSlot(cells[i], boxes) {
      assert cells[i] in cells;
    }
  }

  /** A new result is the stored value with its boxes numbered after the known ones. */
  lemma {:induction false} StoredCells(cells: seq<Cell>, vs: seq<CellValue>, boxes: seq<Box>)
    requires LooksLike(cells, vs)
    ensures cells == CellsOf(Slots(vs, |boxes|), boxes + BoxesOf(cells))
    ensures |BoxesOf(cells)| == |NewContents(vs)|
    ensures forall i | 0 <= i < |BoxesOf(cells)| :: BoxesOf(cells)[i].content == NewContents(vs)[i]
    ensures forall c | c in Slots(vs, |boxes|) :: Between(c, 0, |boxes| + |BoxesOf(cells)|)
  {
    if cells != [] {
      var k := |cells| - 1;
      var init, last := cells[..k], cells[k];
      StoredCells(init, vs[..k], boxes);
      var slots, more := Slots(vs[..k], |boxes|), BoxesOf(cells)[|BoxesOf(init)|..];
      assert BoxesOf(cells) == BoxesOf(init) + more;
      assert boxes + BoxesOf(cells) == boxes + BoxesOf(init) + more;
      CellsKept(slots, boxes + BoxesOf(init), more);
      assert Slots(vs, |boxes|)[..k] == slots;
      assert vs[k].ObjectValue? ==> last == Object((boxes + BoxesOf(cells))[|boxes| + |BoxesOf(init)|]);
      assert cells == init + [last];
    }
  }

  lemma {:induction false} BoxesAreIn(cells: seq<Cell>, i: nat)
    requires i < |BoxesOf(cells)|
    ensures exists k :: 0 <= k < |cells| && cells[k] == Object(BoxesOf(cells)[i])
  {
    var init := cells[..|cells| - 1];
    if i < |BoxesOf(init)| {
      BoxesAreIn(init, i);
      var k :| 0 <= k < |init| && init[k] == Object(BoxesOf(init)[i]);
      assert cells[k] == init[k];
    } else {
      assert cells[|cells| - 1] == Object(BoxesOf(cells)[i]);
    }
  }

  lemma {:induction false} BoxesDiffer(cells: seq<Cell>, i: nat, j: nat)
    requires forall k, l | 0 <= k < l < |cells| && cells[k].Object? && cells[l].Object? :: cells[k].box != cells[l].box
    requires i < j < |BoxesOf(cells)|
    ensures BoxesOf(cells)[i] != BoxesOf(cells)[j]
  {
    var init := cells[..|cells| - 1];
    if j < |BoxesOf(init)| {
      BoxesDiffer(init, i, j);
    } else {
      BoxesAreIn(init, i);
      var k :| 0 <= k < |init| && init[k] == Object(BoxesOf(init)[i]);
      assert cells[k] == init[k];
    }
  }

  /** Boxes of a new result. */
  ghost predicate NewBoxes(more: seq<Box>, boxes: seq<Box>, contents: seq<int>)
    reads more
  {
    Holding(more, contents) && forall i, j | 0 <= i < |more| && 0 <= j < |boxes| :: more[i] != boxes[j]
  }

  lemma HoldingMore(boxes: seq<Box>, contents: seq<int>, more: seq<Box>, others: seq<int>)
    requires Holding(boxes, contents) && NewBoxes(more, boxes, others)
    ensures Holding(boxes + more, contents + others)
  {
  }

  /** A new result of a value brings the boxes of its cells. */
  lemma ResultBoxes(r: Result, v: Value, boxes: seq<Box>)
    requires r.View() == v && r.DistinctBoxes() && forall i | 0 <= i < |boxes| :: boxes[i] !in r.Boxes()
    ensures Shows(r, Item(v.kind, Slots(v.cells, |boxes|)), boxes + BoxesOf(r.cells))
    ensures NewBoxes(BoxesOf(r.cells), boxes, NewContents(v.cells))
    ensures forall b | b in BoxesOf(r.cells) :: b in r.Boxes()
  {
    forall i | 0 <= i < |r.cells|
      ensures match v.cells[i]
              case ScalarValue(n) => r.cells[i] == Scalar(n)
              case ObjectValue(x) => r.cells[i].Object? && r.cells[i].box.content == x
    {
      assert r.View().cells[i] == v.cells[i];
    }
    StoredCells(r.cells, v.cells, boxes);
    var more := BoxesOf(r.cells);
    forall i | 0 <= i < |more| ensures more[i] in r.Boxes() {
      BoxesAreIn(r.cells, i);
    }
    forall i, j | 0 <= i < j < |more| ensures more[i] != more[j] {
      BoxesDiffer(r.cells, i, j);
    }
  }

  /********** Steps of the link **********/

  lemma ShowsKept(r: Result, o: Item, boxes: seq<Box>, more: seq<Box>)
    requires Shows(r, o, boxes) && ItemIn(o, |boxes|)
    ensures Shows(r, o, boxes + more)
  {
    CellsKept(o.cells, boxes, more);
  }

  /** More objects that nothing refers to. */
  lemma LinkedMore(entries: map<Query, Result>, handles: seq<Result>, boxes: seq<Box>, s: State, more: seq<Box>, others: seq<int>)
    requires Linked(entries, handles, boxes, s) && NewBoxes(more, boxes, others)
    ensures Linked(entries, handles, boxes + more, s.(contents := s.contents + others))
  {
    HoldingMore(boxes, s.contents, more, others);
    forall q | q in entries ensures Shows(entries[q], s.cache[q], boxes + more) {
      ShowsKept(entries[q], s.cache[q], boxes, more);
    }
    forall h | 0 <= h < |handles| ensures Shows(handles[h], s.handles[h], boxes + more) {
      assert s.handles[h] in s.handles;
      ShowsKept(handles[h], s.handles[h], boxes, more);
    }
    hide Shows, Holding, NewBoxes;
  }

  lemma LinkedAddHandle(entries: map<Query, Result>, handles: seq<Result>, boxes: seq<Box>, s: State, r: Result, o: Item)
    requires Linked(entries, handles, boxes, s) && Shows(r, o, boxes) && ItemIn(o, |s.contents|)
    requires r !in handles && r !in entries.Values
    ensures Linked(entries, handles + [r], boxes, s.(handles := s.handles + [o]))
  {
    hide Shows, Holding, ItemIn;
  }

  lemma LinkedAddEntry(entries: map<Query, Result>, handles: seq<Result>, boxes: seq<Box>, s: State, q: Query, e: Result, o: Item)
    requires Linked(entries, handles, boxes, s) && Shows(e, o, boxes) && ItemIn(o, |s.contents|) && e !in handles
    ensures Linked(entries[q := e], handles, boxes, s.(cache := s.cache[q := o]))
  {
    hide Shows, Holding, ItemIn;
  }

  /** The link looks at the cache, the contents and the handles only. */
  lemma LinkedSame(entries: map<Query, Result>, handles: seq<Result>, boxes: seq<Box>, s: State, t: State)
    requires Linked(entries, handles, boxes, s) && t.cache == s.cache && t.handles == s.handles && t.contents == s.contents
    ensures Linked(entries, handles, boxes, t)
  {
    hide Shows, Holding, ItemIn;
  }

  /** A client is given a new result with new objects. */
  lemma LinkedGiveStored(entries: map<Query, Result>, handles: seq<Result>, boxes: seq<Box>, s: State, r: Result, v: Value)
    requires Linked(entries, handles, boxes, s) && r !in handles && r !in entries.Values
    requires r.View() == v && r.DistinctBoxes() && forall i | 0 <= i < |boxes| :: boxes[i] !in r.Boxes()
    ensures Linked(entries, handles + [r], boxes + BoxesOf(r.cells), Give(s, Stored(v, s.contents), WithObjects(v, s.contents)))
  {
    ResultBoxes(r, v, boxes);
    StoredView(v, s.contents);
    var t := s.(contents := s.contents + NewContents(v.cells));
    assert |boxes| == |s.contents|;
    hide Shows, Holding, NewBoxes, Slots, NewContents, BoxesOf, Result.View;
    LinkedMore(entries, handles, boxes, s, BoxesOf(r.cells), NewContents(v.cells));
    LinkedAddHandle(entries, handles, boxes + BoxesOf(r.cells), t, r, Stored(v, s.contents));
    LinkedSame(entries, handles + [r], boxes + BoxesOf(r.cells), t.(handles := t.handles + [Stored(v, s.contents)]),
               Give(s, Stored(v, s.contents), WithObjects(v, s.contents)));
  }

  /** A new entry is cached. */
  lemma LinkedCache(entries: map<Query, Result>, handles: seq<Result>, boxes: seq<Box>, s: State, q: Query, e: Result, v: Value)
    requires Linked(entries, handles, boxes, s) && e !in handles
    requires e.View() == v && e.DistinctBoxes() && forall i | 0 <= i < |boxes| :: boxes[i] !in e.Boxes()
    ensures Linked(entries[q := e], handles, boxes + BoxesOf(e.cells), Cache(s, q, v))
  {
    ResultBoxes(e, v, boxes);
    StoredView(v, s.contents);
    assert |boxes| == |s.contents|;
    hide Shows, Holding, NewBoxes, Slots, NewContents, BoxesOf, Result.View;
    LinkedMore(entries, handles, boxes, s, BoxesOf(e.cells), NewContents(v.cells));
    LinkedAddEntry(entries, handles, boxes + BoxesOf(e.cells), s.(contents := s.contents + NewContents(v.cells)), q, e,
                   Stored(v, s.contents));
  }

  /** What the heap shows is what the model sees. */
  lemma ShownView(r: Result, o: Item, boxes: seq<Box>, contents: seq<int>)
    requires Holding(boxes, contents) && Shows(r, o, boxes) && ItemIn(o, |contents|)
    ensures r.View() == View(o, contents)
  {
    forall i | 0 <= i < |o.cells| ensures r.View().cells[i] == ViewSlot(o.cells[i], contents) {
      assert o.cells[i] in o.cells;
    }
    assert r.View().cells == View(o, contents).cells;
  }

  /** The boxes after a copy of a cached result. */
  function AfterCopy(r: Result, boxes: seq<Box>): seq<Box>
    reads r
  {
    if r.kind == Pandas then boxes else boxes + BoxesOf(r.cells)
  }

  /** A client is given a copy of a cached result. */
  lemma LinkedGiveCopy(entries: map<Query, Result>, handles: seq<Result>, boxes: seq<Box>, s: State, q: Query, r: Result,
                       builder: ReportBuilder)
    requires Linked(entries, handles, boxes, s) && q in entries && r !in handles && r !in entries.Values
    requires builder.IsCopy(r, entries[q]) && (r.kind == Plain ==> forall i | 0 <= i < |boxes| :: boxes[i] !in r.Boxes())
    ensures Linked(entries, handles + [r], AfterCopy(r, boxes), GiveCopy(s, s.cache[q]))
    ensures r.View() == View(CopyOf(s.cache[q], s.contents), CopyContents(s.cache[q], s.contents))
  {
    var o := s.cache[q];
    ShownView(entries[q], o, boxes, s.contents);
    var v := View(o, s.contents);
    StoredView(v, s.contents);
    if r.kind == Pandas {
      hide Result.View, Result.Boxes;
      LinkedAddHandle(entries, handles, boxes, s, r, o);
      LinkedSame(entries, handles + [r], boxes, s.(handles := s.handles + [o]), GiveCopy(s, o));
    } else {
      hide Result.View;
      LinkedGiveStored(entries, handles, boxes, s, r, v);
    }
  }

  /********** Sessions **********/

  class Session {
    const builder: ReportBuilder
    var handles: seq<Result>
    var answers: seq<Option<Value>>

    constructor (reader: Reader)
      ensures Valid(INITIAL, []) && fresh(builder) && builder.reader == reader && handles == []
    {
      builder := new ReportBuilder(reader, true);
      handles, answers := [], [];
    }

    ghost predicate Agrees(s: State)
      reads this, builder
    {
      builder.useCache == s.useCache && builder.evaluated == s.evaluated && answers == s.returned
    }

    ghost predicate Valid(s: State, boxes: seq<Box>)
      reads this, builder, builder.Entries().Values, handles, boxes
    {
      Agrees(s) && Linked(builder.Entries(), handles, boxes, s)
    }

    /** Nothing but answers and evaluations changed. */
    method AppendNone(ghost s: State, ghost boxes: seq<Box>, ghost q: Query)
      requires Linked(builder.Entries(), handles, boxes, s) && answers == s.returned
      requires builder.useCache == s.useCache && builder.evaluated == s.evaluated + [q]
      modifies this`answers
      ensures Valid(Evaluate(s, q).(returned := s.returned + [None]), boxes)
    {
      hide Linked, Flatten;
      answers := answers + [None];
      LinkedSame(builder.Entries(), handles, boxes, s, Evaluate(s, q).(returned := s.returned + [None]));
    }

    /** A client keeps a result. */
    method Keep(r: Result, ghost t: State, ghost all: seq<Box>)
      requires Linked(builder.Entries(), handles + [r], all, t) && t.returned == answers + [Some(r.View())]
      requires builder.useCache == t.useCache && builder.evaluated == t.evaluated
      modifies this
      ensures Valid(t, all) && handles == old(handles) + [r]
    {
      hide Linked, Flatten, Result.View;
      handles, answers := handles + [r], answers + [Some(r.View())];
    }

    /** `_reader_exec`: what was there before is linked as before. */
    method Fetch(q: Query, ghost s: State, ghost boxes: seq<Box>) returns (r: Option<Result>)
      requires Linked(builder.Entries(), handles, boxes, s)
      modifies builder`cache, builder`evaluated
      ensures Linked(old(builder.Entries()), handles, boxes, s)
      ensures r.Some? ==> r.value !in old(builder.Entries()).Values && r.value !in handles
      ensures r.Some? && builder.useCache ==> q in builder.Entries() && r.value != builder.Entries()[q]
      ensures r.Some? && builder.useCache && r.value.kind == Plain ==> r.value.Boxes() !! builder.Entries()[q].Boxes()
      ensures old(builder.useCache && q in builder.Entries()) ==>
                && builder.Entries() == old(builder.Entries()) && builder.evaluated == old(builder.evaluated) && r.Some?
      ensures !old(builder.useCache && q in builder.Entries()) ==>
                && builder.evaluated == old(builder.evaluated) + [q] && (r.Some? <==> builder.reader(q).Some?)
                && (!builder.useCache || r.None? ==> builder.Entries() == old(builder.Entries()))
                && (builder.useCache && r.Some? ==>
                      && q in builder.Entries() && builder.Entries() == old(builder.Entries())[q := builder.Entries()[q]]
                      && fresh(builder.Entries()[q]) && fresh(builder.Entries()[q].Boxes())
                      && builder.Entries()[q].DistinctBoxes() && builder.Entries()[q].View() == builder.reader(q).value)
      ensures r.Some? ==> fresh(r.value)
      ensures r.Some? && builder.useCache ==>
                && q in builder.Entries() && builder.IsCopy(r.value, builder.Entries()[q])
                && (r.value.kind == Plain ==> fresh(r.value.Boxes()))
      ensures r.Some? && !builder.useCache ==>
                && fresh(r.value.Boxes()) && r.value.DistinctBoxes() && r.value.View() == builder.reader(q).value
    {
      hide Linked, Result.View, Result.DistinctBoxes;
      r := builder.ReaderExec(q);
    }

    /** `_reader_exec` without the cache. */
    method CallDirect(q: Query, ghost s: State, ghost boxes: seq<Box>) returns (ghost all: seq<Box>)
      requires Valid(s, boxes) && !builder.useCache
      modifies this, builder`cache, builder`evaluated
      ensures Valid(Exec(builder.reader, s, q), all)
      ensures boxes <= all && fresh(all[|boxes|..])
      ensures old(handles) <= handles && fresh(handles[|old(handles)|..])
    {
      hide Flatten, Linked, Result.View, BoxesOf, Stored, WithObjects;
      var r := Fetch(q, s, boxes);
      all := boxes;
      if r.None? {
        AppendNone(s, boxes, q);
      } else {
        ghost var v := builder.reader(q).value;
        all := boxes + BoxesOf(r.value.cells);
        BoxesBelong(r.value);
        LinkedEvaluate(builder.Entries(), handles, boxes, s, q);
        LinkedGiveStored(builder.Entries(), handles, boxes, Evaluate(s, q), r.value, v);
        StoredView(v, s.contents);
        assert all[|boxes|..] == BoxesOf(r.value.cells);
        Keep(r.value, Exec(builder.reader, s, q), all);
      }
    }

    /** `_reader_exec` on a cached query. */
    method CallHit(q: Query, ghost s: State, ghost boxes: seq<Box>) returns (ghost all: seq<Box>)
      requires Valid(s, boxes) && builder.useCache && q in builder.Entries()
      modifies this, builder`cache, builder`evaluated
      ensures Valid(Exec(builder.reader, s, q), all)
      ensures boxes <= all && fresh(all[|boxes|..])
      ensures old(handles) <= handles && fresh(handles[|old(handles)|..])
    {
      hide Flatten, Linked, Result.View, BoxesOf, ReportBuilder.IsCopy, CopyOf, CopyContents;
      LinkedKeys(builder.Entries(), handles, boxes, s);
      var copied := Fetch(q, s, boxes);
      var r := copied.value;
      all := AfterCopy(r, boxes);
      BoxesBelong(r);
      LinkedGiveCopy(builder.Entries(), handles, boxes, s, q, r, builder);
      assert all[|boxes|..] == if r.kind == Pandas then [] else BoxesOf(r.cells);
      Keep(r, GiveCopy(s, s.cache[q]), all);
    }

    /** `_reader_exec` on a query that is not cached. */
    method CallMiss(q: Query, ghost s: State, ghost boxes: seq<Box>) returns (ghost all: seq<Box>)
      requires Valid(s, boxes) && builder.useCache && q !in builder.Entries()
      modifies this, builder`cache, builder`evaluated
      ensures Valid(Exec(builder.reader, s, q), all)
      ensures boxes <= all && fresh(all[|boxes|..])
      ensures old(handles) <= handles && fresh(handles[|old(handles)|..])
    {
      hide Flatten, Linked, Result.View, BoxesOf, CopyOf, CopyContents, Stored, WithObjects;
      LinkedKeys(builder.Entries(), handles, boxes, s);
      ghost var before := builder.Entries();
      var r := Fetch(q, s, boxes);
      all := boxes;
      if r.None? {
        AppendNone(s, boxes, q);
      } else {
        ghost var v, e := builder.reader(q).value, builder.Entries()[q];
        ghost var mid, t := boxes + BoxesOf(e.cells), Cache(Evaluate(s, q), q, v);
        all := AfterCopy(r.value, mid);
        BoxesBelong(e);
        BoxesBelong(r.value);
        LinkedEvaluate(before, handles, boxes, s, q);
        LinkedCache(before, handles, boxes, Evaluate(s, q), q, e, v);
        LinkedGiveCopy(builder.Entries(), handles, mid, t, q, r.value, builder);
        assert all[|boxes|..] == BoxesOf(e.cells) + if r.value.kind == Pandas then [] else BoxesOf(r.value.cells);
        Keep(r.value, Exec(builder.reader, s, q), all);
      }
    }

    /** A client calls the proxy. */
    method Call(q: Query, ghost s: State, ghost boxes: seq<Box>) returns (ghost all: seq<Box>)
      requires Valid(s, boxes)
      modifies this, builder`cache, builder`evaluated
      ensures Valid(Step(builder.reader, s, CacheModel.Call(q)), all)
      ensures boxes <= all && fresh(all[|boxes|..])
      ensures old(handles) <= handles && fresh(handles[|old(handles)|..])
    {
      hide Linked, Exec;
      FlattenAt(builder.cache, q);
      if !builder.useCache {
        all := CallDirect(q, s, boxes);
      } else if q.0 in builder.cache && q.1 in builder.cache[q.0] {
        all := CallHit(q, s, boxes);
      } else {
        all := CallMiss(q, s, boxes);
      }
    }

    /** The cells that a client gives a result: numbers, new objects, and what is in cells of its results. */
    method PickCells(sources: seq<Source>, ghost s: State, ghost boxes: seq<Box>)
      returns (cells: seq<Cell>, ghost more: seq<Box>)
      requires Valid(s, boxes)
      ensures cells == CellsOf(Picks(s, sources), boxes + more)
      ensures NewBoxes(more, boxes, SourceContents(sources)) && fresh(more)
    {
      hide Flatten;
      cells, more := [], [];
      var i := 0;
      while i < |sources|
        invariant 0 <= i <= |sources| && fresh(more) && NewBoxes(more, boxes, SourceContents(sources[..i]))
        invariant cells == CellsOf(Picks(s, sources[..i]), boxes + more)
      {
        assert sources[..i + 1][..i] == sources[..i];
        PicksInScope(s, sources[..i]);
        match sources[i] {
          case Number(n) =>
            cells := cells + [Scalar(n)];
          case NewObject(x) =>
            var b := new Box(x);
            CellsKept(Picks(s, sources[..i]), boxes + more, [b]);
            assert boxes + more + [b] == boxes + (more + [b]);
            more := more + [b];
            cells := cells + [Object(b)];
          case CellOf(g, j) =>
            if g < |handles| && j < |handles[g].cells| {
              assert Shows(handles[g], s.handles[g], boxes) && s.handles[g] in s.handles;
              CellsKept(s.handles[g].cells, boxes, more);
              assert CellsOf(s.handles[g].cells, boxes + more)[j] == handles[g].cells[j];
              cells := cells + [handles[g].cells[j]];
            } else {
              assert g < |handles| ==> Shows(handles[g], s.handles[g], boxes);
              cells := cells + [Scalar(0)];
            }
        }
        i := i + 1;
      }
      assert sources[..i] == sources;
    }

    /** One result of a client gets new cells. */
    method SetCells(h: nat, cells: seq<Cell>, ghost t: State, ghost all: seq<Box>, ghost picks: seq<Slot>)
      requires Linked(builder.Entries(), handles, all, t) && h < |handles|
      requires cells == CellsOf(picks, all) && forall c | c in picks :: Between(c, 0, |t.contents|)
      modifies handles[h]
      ensures Linked(builder.Entries(), handles, all, t.(handles := t.handles[h := t.handles[h].(cells := picks)]))
    {
      hide Holding, InScope, CellsOf;
      ghost var entries := builder.Entries();
      LinkedCount(entries, handles, all, t);
      ScopeEdited(t, h, picks);
      assert Shows(handles[h], t.handles[h], all);
      handles[h].cells := cells;
    }

    /** A client gives one of its results new cells. */
    method Edit(h: nat, sources: seq<Source>, ghost s: State, ghost boxes: seq<Box>) returns (ghost all: seq<Box>)
      requires Valid(s, boxes)
      modifies handles
      ensures Valid(Step(builder.reader, s, CacheModel.Edit(h, sources)), all)
      ensures boxes <= all && fresh(all[|boxes|..])
    {
      hide Linked, Picks, SourceContents, NewBoxes;
      LinkedCount(builder.Entries(), handles, boxes, s);
      all := boxes;
      if h < |handles| {
        var cells;
        ghost var more;
        cells, more := PickCells(sources, s, boxes);
        all := boxes + more;
        PicksInScope(s, sources);
        LinkedMore(builder.Entries(), handles, boxes, s, more, SourceContents(sources));
        SetCells(h, cells, s.(contents := s.contents + SourceContents(sources)), all, Picks(s, sources));
      }
    }

    /** A client changes the object in a cell of one of its results. */
    method WriteObject(h: nat, i: nat, x: int, ghost s: State, ghost boxes: seq<Box>)
      requires Valid(s, boxes)
      modifies boxes
      ensures Valid(Step(builder.reader, s, CacheModel.WriteObject(h, i, x)), boxes)
    {
      hide Flatten, InScope;
      if h < |handles| && i < |handles[h].cells| {
        assert Shows(handles[h], s.handles[h], boxes);
        match handles[h].cells[i]
        case Scalar(_) =>
          SlotInScope(s, h, i);
        case Object(b) =>
          assert b == boxes[s.handles[h].cells[i].id];
          b.content := x;
          ScopeKept(s, s.contents[s.handles[h].cells[i].id := x]);
      } else {
        assert h < |handles| ==> Shows(handles[h], s.handles[h], boxes);
      }
    }

    method UseCache(on: bool, ghost s: State, ghost boxes: seq<Box>)
      requires Valid(s, boxes)
      modifies builder`useCache
      ensures Valid(Step(builder.reader, s, CacheModel.UseCache(on)), boxes)
    {
      hide Flatten, Shows, Holding, ItemIn;
      builder.useCache := on;
    }

    method Reset(ghost s: State, ghost boxes: seq<Box>)
      requires Valid(s, boxes)
      modifies builder`cache
      ensures Valid(Step(builder.reader, s, CacheModel.Reset), boxes)
    {
      hide Flatten, Shows, Holding, ItemIn;
      builder.ResetCache();
    }

    method Perform(c: Command, ghost s: State, ghost boxes: seq<Box>) returns (ghost all: seq<Box>)
      requires Valid(s, boxes)
      modifies this, builder, handles, boxes
      ensures Valid(Step(builder.reader, s, c), all)
      ensures boxes <= all && fresh(all[|boxes|..])
      ensures old(handles) <= handles && fresh(handles[|old(handles)|..])
    {
      hide Linked, Step;
      all := boxes;
      match c {
        case Call(q) => all := Call(q, s, boxes);
        case Edit(h, sources) => all := Edit(h, sources, s, boxes);
        case WriteObject(h, i, x) => WriteObject(h, i, x, s, boxes);
        case UseCache(on) => UseCache(on, s, boxes);
        case Reset => Reset(s, boxes);
      }
    }
  }

  lemma LinkedKeys(entries: map<Query, Result>, handles: seq<Result>, boxes: seq<Box>, s: State)
    requires Linked(entries, handles, boxes, s)
    ensures entries.Keys == s.cache.Keys
  {
  }

  lemma LinkedEvaluate(entries: map<Query, Result>, handles: seq<Result>, boxes: seq<Box>, s: State, q: Query)
    requires Linked(entries, handles, boxes, s)
    ensures Linked(entries, handles, boxes, Evaluate(s, q))
  {
    hide Linked;
    LinkedSame(entries, handles, boxes, s, Evaluate(s, q));
  }

  lemma BoxesBelong(r: Result)
    ensures forall i | 0 <= i < |BoxesOf(r.cells)| :: BoxesOf(r.cells)[i] in r.Boxes()
  {
    forall i | 0 <= i < |BoxesOf(r.cells)| ensures BoxesOf(r.cells)[i] in r.Boxes() {
      BoxesAreIn(r.cells, i);
    }
  }

  lemma PicksInScope(s: State, sources: seq<Source>)
    requires InScope(s)
    ensures forall c | c in Picks(s, sources) :: Between(c, 0, |s.contents| + |SourceContents(sources)|)
  {
    forall i | 0 <= i < |sources| ensures Between(Picks(s, sources)[i], 0, |s.contents| + |SourceContents(sources)|) {
      PicksAre(s, sources, i);
    }
  }

  lemma ScopeEdited(t: State, h: nat, picks: seq<Slot>)
    requires InScope(t) && h < |t.handles| && forall c | c in picks :: Between(c, 0, |t.contents|)
    ensures InScope(t.(handles := t.handles[h := t.handles[h].(cells := picks)]))
  {
  }

  lemma LinkedCount(entries: map<Query, Result>, handles: seq<Result>, boxes: seq<Box>, s: State)
    requires Linked(entries, handles, boxes, s)
    ensures |handles| == |s.handles| && InScope(s)
  {
  }

  lemma SlotInScope(s: State, h: nat, i: nat)
    requires InScope(s) && InHandle(s, h, i)
    ensures Between(s.handles[h].cells[i], 0, |s.contents|)
  {
    assert s.handles[h] in s.handles && s.handles[h].cells[i] in s.handles[h].cells;
  }

  lemma ScopeKept(s: State, contents: seq<int>)
    requires InScope(s) && |contents| == |s.contents|
    ensures InScope(s.(contents := contents))
  {
  }

  /** Runs a whole session on a new builder. The answers of the calls and the calls that reach the reader
      are those of the model, whatever the clients do to the results they hold. */
  method RunSession(reader: Reader, commands: seq<Command>) returns (answers: seq<Option<Value>>, ghost evaluated: seq<Query>)
    ensures answers == Run(reader, INITIAL, commands).returned
    ensures evaluated == Run(reader, INITIAL, commands).evaluated
    ensures FlatFrames(reader) ==> answers == Direct(reader, commands)
  {
    hide Linked, Step;
    var session := new Session(reader);
    ghost var s, boxes: seq<Box> := INITIAL, [];
    for k := 0 to |commands|
      invariant fresh(session) && fresh(session.builder) && session.builder.reader == reader
      invariant fresh(boxes) && fresh(session.handles)
      invariant s == Run(reader, INITIAL, commands[..k]) && session.Valid(s, boxes)
    {
      ghost var held := session.handles;
      ghost var all := session.Perform(commands[k], s, boxes);
      assert all == boxes + all[|boxes|..] && session.handles == held + session.handles[|held|..];
      boxes := all;
      s := Step(reader, s, commands[k]);
      assert commands[..k + 1][..k] == commands[..k];
    }
    assert commands[..|commands|] == commands;
    answers, evaluated := session.answers, session.builder.evaluated;
    if FlatFrames(reader) {
      RunFaithful(reader, commands);
    }
  }
}
