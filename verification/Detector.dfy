/** The frame scheduler of the face detector (wotemu/apps/detector.py): a bounded priority queue fed by
    camera events, one frame in detection at a time, and the latest detections kept per camera. */
module Detector {
  import opened Collections

  type Camera = string

  datatype Frame = Frame(cam: Camera, jpg: string, timeCapture: real)

  /** What the priority of a queued frame was computed from: the frames of its camera processed so far,
      and its age in seconds. */
  datatype Stamp = Stamp(count: nat, age: real)

  datatype Entry = Entry(stamp: Stamp, frame: Frame, timeArrival: real)

  datatype Face = Face(top: int, right: int, bottom: int, left: int)

  datatype Processed = Processed(frame: Frame, faces: seq<Face>)

  const MAX_SECONDS: real := 10.0

  /** `_frame_priority`: lower goes first. */
  function Priority(s: Stamp): real
    requires s.age != 0.0
  {
    s.count as real + 1.0 / s.age
  }

  predicate Aged(q: seq<Entry>) { forall e | e in q :: e.stamp.age != 0.0 }

  /********** The order of the queue **********/

  /** The position of an entry of least priority. */
  function MinIndex(q: seq<Entry>): (m: nat)
    requires q != [] && Aged(q)
    ensures m < |q| && forall j | 0 <= j < |q| :: Priority(q[m].stamp) <= Priority(q[j].stamp)
  {
    if |q| == 1 then 0
    else
      var rest := q[..|q| - 1];
      var m := MinIndex(rest);
      assert forall j | 0 <= j < |q| - 1 :: q[j] == rest[j];
      if Priority(q[|q| - 1].stamp) < Priority(q[m].stamp) then |q| - 1 else m
  }

  function RemoveAt<T>(q: seq<T>, i: nat): (r: seq<T>)
    requires i < |q|
    ensures |r| == |q| - 1
    ensures forall k | 0 <= k < |r| :: r[k] == q[if k < i then k else k + 1]
  {
    q[..i] + q[i + 1..]
  }

  lemma RemoveAtRest<T>(q: seq<T>, i: nat)
    requires i < |q|
    ensures multiset(RemoveAt(q, i)) == multiset(q) - multiset{q[i]}
    ensures forall e | e in RemoveAt(q, i) :: e in q
  {
    assert q == q[..i] + [q[i]] + q[i + 1..];
  }

  /** The order in which a queue empties when nothing is put meanwhile. */
  function Drain(q: seq<Entry>): (r: seq<Entry>)
    requires Aged(q)
    decreases |q|
  {
    if q == [] then []
    else [q[MinIndex(q)]] + Drain(RemoveAt(q, MinIndex(q)))
  }

  lemma DrainFirst(q: seq<Entry>, rest: seq<Entry>)
    requires q != [] && Aged(q) && rest == RemoveAt(q, MinIndex(q))
    ensures Aged(rest) && Drain(q)[0] == q[MinIndex(q)] && Drain(q)[1..] == Drain(rest)
  {
    RemoveAtRest(q, MinIndex(q));
  }

  /** Draining only reorders the queue. */
  lemma {:induction false} DrainPermutes(q: seq<Entry>)
    requires Aged(q)
    ensures |Drain(q)| == |q| && multiset(Drain(q)) == multiset(q)
    ensures forall e :: e in Drain(q) <==> e in q
    decreases |q|
  {
    if q != [] {
      var m := MinIndex(q);
      RemoveAtRest(q, m);
      DrainPermutes(RemoveAt(q, m));
      assert multiset(q) == multiset{q[m]} + multiset(RemoveAt(q, m));
    }
    assert forall e :: e in Drain(q) <==> e in multiset(Drain(q));
    assert forall e :: e in q <==> e in multiset(q);
  }

  /** Fewer processed frames first, then older first. */
  predicate Before(s: Stamp, t: Stamp) { s.count < t.count || (s.count == t.count && s.age > t.age) }

  lemma InverseOrder(a: real, b: real)
    requires a > 0.0 && b > 0.0
    ensures 1.0 / a < 1.0 / b <==> b < a
  {
    var x, y := 1.0 / a, 1.0 / b;
    assert x * a == 1.0 && y * b == 1.0;
    assert (y - x) * (a * b) == a - b;
    assert a * b > 0.0;
    if y > x {
      assert (y - x) * (a * b) > 0.0;
    } else {
      assert (y - x) * (a * b) <= 0.0;
    }
  }

  lemma InverseBelowOne(a: real)
    requires a > 1.0
    ensures 0.0 < 1.0 / a < 1.0
  {
    InverseOrder(a, 1.0);
  }

  /** For two ages, the camera with fewer processed frames always goes first exactly when the inverse ages
      are less than one apart. */
  lemma CountDecidesIff(a: real, b: real)
    requires a > 0.0 && b > 0.0
    ensures (forall m: nat, n: nat | m < n :: Priority(Stamp(m, a)) < Priority(Stamp(n, b))) <==> 1.0 / a - 1.0 / b < 1.0
  {
    if forall m: nat, n: nat | m < n :: Priority(Stamp(m, a)) < Priority(Stamp(n, b)) {
      assert Priority(Stamp(0, a)) < Priority(Stamp(1, b));
    }
  }

  /** The queue compares priorities only. */
  predicate DistinctPriorities(q: seq<Entry>)
    requires Aged(q)
  {
    forall i, j | 0 <= i < |q| && 0 <= j < |q| && i != j :: Priority(q[i].stamp) != Priority(q[j].stamp)
  }

  predicate Rising(q: seq<Entry>)
    requires Aged(q)
  {
    forall i, j | 0 <= i < j < |q| :: Priority(q[i].stamp) < Priority(q[j].stamp)
  }

  lemma FirstIsLeast(q: seq<Entry>, e: Entry)
    requires q != [] && Aged(q) && DistinctPriorities(q) && e in RemoveAt(q, MinIndex(q))
    ensures e in q && Priority(q[MinIndex(q)].stamp) < Priority(e.stamp)
  {
    hide MinIndex, RemoveAt, Priority;
    var m := MinIndex(q);
    var k :| 0 <= k < |RemoveAt(q, m)| && RemoveAt(q, m)[k] == e;
    var l := if k < m then k else k + 1;
    assert q[l] == e;
  }

  lemma RisingCons(e: Entry, q: seq<Entry>)
    requires Aged([e] + q) && Aged(q) && Rising(q) && forall f | f in q :: Priority(e.stamp) < Priority(f.stamp)
    ensures Rising([e] + q)
  {
    hide Priority;
    var r := [e] + q;
    forall i, j | 0 <= i < j < |r| ensures Priority(r[i].stamp) < Priority(r[j].stamp) {
      assert r[j] == q[j - 1];
      if i > 0 {
        assert r[i] == q[i - 1];
      }
    }
  }

  lemma RestHasDistinctPriorities(q: seq<Entry>, i: nat)
    requires i < |q| && Aged(q) && DistinctPriorities(q)
    ensures Aged(RemoveAt(q, i)) && DistinctPriorities(RemoveAt(q, i))
  {
    RemoveAtRest(q, i);
    hide RemoveAt, Priority;
  }

  /** With distinct priorities the queue empties in the order of priorities. */
  lemma {:induction false} DrainRises(q: seq<Entry>)
    requires Aged(q) && DistinctPriorities(q)
    ensures Aged(Drain(q)) && Rising(Drain(q))
    decreases |q|
  {
    hide Priority, MinIndex, Rising, DistinctPriorities;
    if q != [] {
      var m := MinIndex(q);
      var rest := RemoveAt(q, m);
      RestHasDistinctPriorities(q, m);
      DrainRises(rest);
      DrainPermutes(rest);
      forall e | e in rest ensures e in q && Priority(q[m].stamp) < Priority(e.stamp) {
        FirstIsLeast(q, e);
      }
      RisingCons(q[m], Drain(rest));
    } else {
      RisingNone();
    }
  }

  lemma RisingNone()
    ensures Rising([])
  {
  }

  predicate Lexicographic(q: seq<Entry>) { forall i, j | 0 <= i < j < |q| :: Before(q[i].stamp, q[j].stamp) }

  predicate Positive(q: seq<Entry>) { forall e | e in q :: e.stamp.age > 0.0 }

  /** Inverse ages never outweigh a difference in counts. */
  ghost predicate CountsOutweigh(q: seq<Entry>)
    requires Aged(q)
  {
    forall e, f | e in q && f in q && e.stamp.count < f.stamp.count ::
      1.0 / e.stamp.age - 1.0 / f.stamp.age < (f.stamp.count - e.stamp.count) as real
  }

  lemma OutweighsIff(s: Stamp, t: Stamp)
    requires s.age != 0.0 && t.age != 0.0 && s.count < t.count
    ensures Priority(s) < Priority(t) <==> 1.0 / s.age - 1.0 / t.age < (t.count - s.count) as real
  {
  }

  lemma InOrder(s: Stamp, t: Stamp)
    requires s.age > 0.0 && t.age > 0.0 && Priority(s) < Priority(t)
    requires t.count < s.count ==> Priority(t) < Priority(s)
    ensures Before(s, t)
  {
    if s.count == t.count {
      InverseOrder(s.age, t.age);
    }
  }

  lemma RisingLexicographic(q: seq<Entry>)
    requires Positive(q) && Aged(q) && Rising(q)
    ensures Lexicographic(q) <==> CountsOutweigh(q)
  {
    hide Priority, Before;
    if CountsOutweigh(q) {
      forall i, j | 0 <= i < j < |q| ensures Before(q[i].stamp, q[j].stamp) {
        assert q[i] in q && q[j] in q;
        if q[j].stamp.count < q[i].stamp.count {
          OutweighsIff(q[j].stamp, q[i].stamp);
        }
        InOrder(q[i].stamp, q[j].stamp);
      }
    }
    if Lexicographic(q) {
      forall e, f | e in q && f in q && e.stamp.count < f.stamp.count
        ensures 1.0 / e.stamp.age - 1.0 / f.stamp.age < (f.stamp.count - e.stamp.count) as real
      {
        var i :| 0 <= i < |q| && q[i] == e;
        var j :| 0 <= j < |q| && q[j] == f;
        if j < i {
          assert Before(f.stamp, e.stamp);
          CountsNotBefore(e.stamp, f.stamp);
          assert false;
        }
        OutweighsIff(e.stamp, f.stamp);
      }
    }
  }

  lemma CountsNotBefore(s: Stamp, t: Stamp)
    requires s.count < t.count
    ensures !Before(t, s)
  {
  }

  /** The queue empties camera count first, older first, exactly when inverse ages never outweigh a difference
      in counts. */
  lemma DrainLexicographicIff(q: seq<Entry>)
    requires Positive(q) && Aged(q) && DistinctPriorities(q)
    ensures Lexicographic(Drain(q)) <==> CountsOutweigh(q)
  {
    hide Priority, Before, Rising, DistinctPriorities, Lexicographic, Drain;
    DrainRises(q);
    DrainPermutes(q);
    RisingLexicographic(Drain(q));
    assert CountsOutweigh(Drain(q)) <==> CountsOutweigh(q);
  }

  predicate Distinct(q: seq<Entry>) { forall i, j | 0 <= i < |q| && 0 <= j < |q| && i != j :: q[i].stamp != q[j].stamp }

  /** No two inverse ages are one apart or more. */
  ghost predicate AgesClose(q: seq<Entry>)
    requires Aged(q)
  {
    forall e, f | e in q && f in q :: 1.0 / e.stamp.age - 1.0 / f.stamp.age < 1.0
  }

  lemma CloseStampsDiffer(s: Stamp, t: Stamp)
    requires s != t && s.age > 0.0 && t.age > 0.0
    requires 1.0 / s.age - 1.0 / t.age < 1.0 && 1.0 / t.age - 1.0 / s.age < 1.0
    ensures Priority(s) != Priority(t)
  {
    InverseOrder(s.age, t.age);
    InverseOrder(t.age, s.age);
  }

  /** Whatever the counts, when no two inverse ages are one apart or more. */
  lemma DrainIsLexicographic(q: seq<Entry>)
    requires Positive(q) && Aged(q) && Distinct(q) && AgesClose(q)
    ensures Lexicographic(Drain(q))
  {
    hide Priority, Before, Lexicographic, Drain;
    forall i, j | 0 <= i < |q| && 0 <= j < |q| && i != j ensures Priority(q[i].stamp) != Priority(q[j].stamp) {
      assert q[i] in q && q[j] in q;
      CloseStampsDiffer(q[i].stamp, q[j].stamp);
    }
    DrainLexicographicIff(q);
  }

  /** In particular when every frame was older than a second when it was queued. */
  lemma OldFramesDrainInOrder(q: seq<Entry>)
    requires Distinct(q) && forall e | e in q :: e.stamp.age > 1.0
    ensures Aged(q) && |Drain(q)| == |q| && multiset(Drain(q)) == multiset(q) && Lexicographic(Drain(q))
  {
    forall e | e in q ensures 0.0 < 1.0 / e.stamp.age < 1.0 {
      InverseBelowOne(e.stamp.age);
    }
    DrainIsLexicographic(q);
    DrainPermutes(q);
  }

  /** A frame queued half a second after its capture waits for one of a busier camera. */
  lemma FreshFrameOvertaken(f: Frame, now: real)
    ensures var young, aged := Entry(Stamp(0, 0.5), f, now), Entry(Stamp(1, 2.0), f, now);
            Drain([young, aged])[0] == aged && Before(young.stamp, aged.stamp)
  {
    var q := [Entry(Stamp(0, 0.5), f, now), Entry(Stamp(1, 2.0), f, now)];
    assert Priority(q[0].stamp) == 2.0 && Priority(q[1].stamp) == 1.5;
  }

  /********** The store **********/

  predicate Seen(cam: Camera, ds: seq<Processed>) { exists i | 0 <= i < |ds| :: ds[i].frame.cam == cam }

  /** The frames in which faces were found. */
  function Positives(h: seq<Processed>): seq<Processed> {
    if h == [] then []
    else if h[|h| - 1].faces == [] then Positives(h[..|h| - 1])
    else Positives(h[..|h| - 1]) + [h[|h| - 1]]
  }

  /** The frames that no later frame of the same camera replaces, in order. */
  function Latest(ds: seq<Processed>): seq<Processed> {
    if ds == [] then []
    else if Seen(ds[0].frame.cam, ds[1..]) then Latest(ds[1..])
    else [ds[0]] + Latest(ds[1..])
  }

  function Without(ds: seq<Processed>, cam: Camera): seq<Processed> {
    if ds == [] then []
    else if ds[0].frame.cam == cam then Without(ds[1..], cam)
    else [ds[0]] + Without(ds[1..], cam)
  }

  lemma SeenAppend(cam: Camera, ds: seq<Processed>, d: Processed)
    ensures Seen(cam, ds + [d]) <==> Seen(cam, ds) || d.frame.cam == cam
  {
    var r := ds + [d];
    assert r[|ds|] == d;
    assert forall i | 0 <= i < |ds| :: r[i] == ds[i];
  }

  lemma WithoutCons(d: Processed, ds: seq<Processed>, cam: Camera)
    ensures Without([d] + ds, cam) == if d.frame.cam == cam then Without(ds, cam) else [d] + Without(ds, cam)
  {
    assert ([d] + ds)[1..] == ds;
  }

  /** A new frame replaces the one of its camera and goes last. */
  lemma {:induction false} LatestAppend(ds: seq<Processed>, d: Processed)
    ensures Latest(ds + [d]) == Without(Latest(ds), d.frame.cam) + [d]
  {
    var r := ds + [d];
    if ds == [] {
      assert r[1..] == [];
    } else {
      assert r[1..] == ds[1..] + [d];
      LatestAppend(ds[1..], d);
      SeenAppend(ds[0].frame.cam, ds[1..], d);
      WithoutCons(ds[0], Latest(ds[1..]), d.frame.cam);
      hide Without, Seen;
      if !Seen(ds[0].frame.cam, r[1..]) {
        var t := Without(Latest(ds[1..]), d.frame.cam);
        assert Latest(r) == [ds[0]] + (t + [d]) == ([ds[0]] + t) + [d];
      }
    }
  }

  /** The last frame of its camera. */
  predicate LastOfCamera(ds: seq<Processed>, i: nat)
    requires i < |ds|
  {
    !Seen(ds[i].frame.cam, ds[i + 1..])
  }

  lemma SeenTail(cam: Camera, ds: seq<Processed>)
    requires ds != []
    ensures Seen(cam, ds) <==> ds[0].frame.cam == cam || Seen(cam, ds[1..])
  {
    assert forall i | 0 < i < |ds| :: ds[i] == ds[1..][i - 1];
    assert forall i | 0 <= i < |ds| - 1 :: ds[1..][i] == ds[i + 1];
  }

  /** Every camera at most once. */
  predicate OnePerCamera(ds: seq<Processed>) {
    forall i, j | 0 <= i < j < |ds| :: ds[i].frame.cam != ds[j].frame.cam
  }

  lemma OneMoreCamera(d: Processed, ds: seq<Processed>)
    requires OnePerCamera(ds) && !Seen(d.frame.cam, ds)
    ensures OnePerCamera([d] + ds)
  {
    var r := [d] + ds;
    forall i, j | 0 <= i < j < |r| ensures r[i].frame.cam != r[j].frame.cam {
      assert r[j] == ds[j - 1];
      if i > 0 {
        assert r[i] == ds[i - 1];
      }
    }
  }

  /** The kept frames have distinct cameras, and cover exactly the cameras of the history. */
  lemma {:induction false} LatestCameras(ds: seq<Processed>, cam: Camera)
    ensures Seen(cam, Latest(ds)) <==> Seen(cam, ds)
    ensures OnePerCamera(Latest(ds))
  {
    if ds != [] {
      var r, t := Latest(ds), Latest(ds[1..]);
      LatestCameras(ds[1..], cam);
      LatestCameras(ds[1..], ds[0].frame.cam);
      SeenTail(cam, ds);
      if Seen(ds[0].frame.cam, ds[1..]) {
        assert r == t;
      } else {
        assert r == [ds[0]] + t && r[1..] == t;
        SeenTail(cam, r);
        OneMoreCamera(ds[0], t);
      }
    }
  }

  /** Positions of the kept frames: increasing, and exactly the last ones of each camera. */
  function LastPositions(ds: seq<Processed>, from: nat): (ps: seq<nat>)
    requires from <= |ds|
    ensures forall k | 0 <= k < |ps| :: from <= ps[k] < |ds|
    ensures forall k, l | 0 <= k < l < |ps| :: ps[k] < ps[l]
    ensures forall i | from <= i < |ds| :: i in ps <==> LastOfCamera(ds, i)
    decreases |ds| - from
  {
    if from == |ds| then []
    else if LastOfCamera(ds, from) then [from] + LastPositions(ds, from + 1)
    else LastPositions(ds, from + 1)
  }

  lemma {:induction false} LatestFrom(ds: seq<Processed>, from: nat)
    requires from <= |ds|
    ensures |Latest(ds[from..])| == |LastPositions(ds, from)|
    ensures forall k | 0 <= k < |LastPositions(ds, from)| :: Latest(ds[from..])[k] == ds[LastPositions(ds, from)[k]]
    decreases |ds| - from
  {
    if from < |ds| {
      assert ds[from..][1..] == ds[from + 1..];
      LatestFrom(ds, from + 1);
      hide Seen;
    }
  }

  /** The kept frames are the last frame of each camera, ordered by processing time. */
  lemma LatestIsLast(ds: seq<Processed>)
    ensures var ps := LastPositions(ds, 0);
            |Latest(ds)| == |ps| && forall k | 0 <= k < |ps| :: Latest(ds)[k] == ds[ps[k]]
  {
    assert ds[0..] == ds;
    LatestFrom(ds, 0);
  }

  lemma {:induction false} WithoutUnseen(ds: seq<Processed>, cam: Camera)
    requires !Seen(cam, ds)
    ensures Without(ds, cam) == ds
  {
    if ds != [] {
      SeenTail(cam, ds);
      WithoutUnseen(ds[1..], cam);
    }
  }

  /** With one entry per camera, removing the entry of a camera removes them all. */
  lemma {:induction false} WithoutIsRemoveAt(ds: seq<Processed>, i: nat)
    requires i < |ds| && OnePerCamera(ds)
    ensures Without(ds, ds[i].frame.cam) == RemoveAt(ds, i)
  {
    var t := ds[1..];
    assert forall k | 0 <= k < |t| :: t[k] == ds[k + 1];
    if i == 0 {
      WithoutUnseen(t, ds[0].frame.cam);
    } else {
      WithoutIsRemoveAt(t, i - 1);
      assert t[i - 1] == ds[i];
      assert RemoveAt(ds, i) == [ds[0]] + RemoveAt(t, i - 1);
    }
  }

  /********** Histories **********/

  /** How many frames of a camera were processed. */
  function CountOf(h: seq<Processed>, cam: Camera): nat {
    if h == [] then 0 else CountOf(h[..|h| - 1], cam) + if h[|h| - 1].frame.cam == cam then 1 else 0
  }

  lemma HistoryAppend(h: seq<Processed>, p: Processed, cam: Camera)
    ensures CountOf(h + [p], cam) == CountOf(h, cam) + if p.frame.cam == cam then 1 else 0
    ensures Positives(h + [p]) == if p.faces == [] then Positives(h) else Positives(h) + [p]
  {
    assert (h + [p])[..|h|] == h;
  }

  /** How often a frame is queued. */
  function Waiting(q: seq<Entry>, f: Frame): nat {
    if q == [] then 0 else Waiting(q[..|q| - 1], f) + if q[|q| - 1].frame == f then 1 else 0
  }

  lemma WaitingAppend(q: seq<Entry>, e: Entry, f: Frame)
    ensures Waiting(q + [e], f) == Waiting(q, f) + if e.frame == f then 1 else 0
  {
    assert (q + [e])[..|q|] == q;
  }

  lemma {:induction false} WaitingRemoveAt(q: seq<Entry>, i: nat, f: Frame)
    requires i < |q|
    ensures Waiting(q, f) == Waiting(RemoveAt(q, i), f) + if q[i].frame == f then 1 else 0
  {
    var init, last := q[..|q| - 1], q[|q| - 1];
    if i < |q| - 1 {
      WaitingRemoveAt(init, i, f);
      assert RemoveAt(q, i) == RemoveAt(init, i) + [last];
      WaitingAppend(RemoveAt(init, i), last, f);
    } else {
      assert RemoveAt(q, i) == init;
    }
  }

  /** How often a frame was processed. */
  function Handled(h: seq<Processed>, f: Frame): nat {
    if h == [] then 0 else Handled(h[..|h| - 1], f) + if h[|h| - 1].frame == f then 1 else 0
  }

  function InDetection(current: Option<Entry>, f: Frame): nat {
    if current.Some? && current.value.frame == f then 1 else 0
  }

  /** Frames given up: the queue was full, the priority could not be computed, or the wait was too long. */
  datatype Lost = Lost(full: multiset<Frame>, failed: multiset<Frame>, stale: multiset<Frame>)

  function Losses(lost: Lost, f: Frame): nat { lost.full[f] + lost.failed[f] + lost.stale[f] }

  function LostFull(lost: Lost, f: Frame): Lost { lost.(full := lost.full + multiset{f}) }
  function LostFailed(lost: Lost, f: Frame): Lost { lost.(failed := lost.failed + multiset{f}) }
  function LostStale(lost: Lost, f: Frame): Lost { lost.(stale := lost.stale + multiset{f}) }

  /** Every offered frame is in exactly one place, as often as it was offered. */
  ghost predicate Conserved(offered: multiset<Frame>, queue: seq<Entry>, current: Option<Entry>, lost: Lost,
                            history: seq<Processed>)
  {
    forall f :: offered[f] == Waiting(queue, f) + InDetection(current, f) + Losses(lost, f) + Handled(history, f)
  }

  /** The counters tell the processed frames of every camera. */
  ghost predicate Counted(counters: map<Camera, nat>, history: seq<Processed>) {
    forall cam :: CountOf(history, cam) == if cam in counters then counters[cam] else 0
  }

  lemma CountedNext(counters: map<Camera, nat>, history: seq<Processed>, p: Processed)
    requires Counted(counters, history)
    ensures var cam := p.frame.cam;
            Counted(counters[cam := (if cam in counters then counters[cam] else 0) + 1], history + [p])
  {
    forall c { HistoryAppend(history, p, c); }
  }

  lemma ConservedQueued(offered: multiset<Frame>, queue: seq<Entry>, current: Option<Entry>, lost: Lost,
                        history: seq<Processed>, e: Entry)
    requires Conserved(offered, queue, current, lost, history)
    ensures Conserved(offered + multiset{e.frame}, queue + [e], current, lost, history)
    ensures Conserved(offered + multiset{e.frame}, queue, current, LostFull(lost, e.frame), history)
    ensures Conserved(offered + multiset{e.frame}, queue, current, LostFailed(lost, e.frame), history)
  {
    forall f { WaitingAppend(queue, e, f); }
  }

  lemma ConservedTaken(offered: multiset<Frame>, queue: seq<Entry>, lost: Lost, history: seq<Processed>, i: nat)
    requires i < |queue| && Conserved(offered, queue, None, lost, history)
    ensures Conserved(offered, RemoveAt(queue, i), Some(queue[i]), lost, history)
    ensures Conserved(offered, RemoveAt(queue, i), None, LostStale(lost, queue[i].frame), history)
  {
    forall f { WaitingRemoveAt(queue, i, f); }
  }

  lemma ConservedFinished(offered: multiset<Frame>, queue: seq<Entry>, e: Entry, lost: Lost,
                          history: seq<Processed>, p: Processed)
    requires Conserved(offered, queue, Some(e), lost, history) && p.frame == e.frame
    ensures Conserved(offered, queue, None, lost, history + [p])
  {
    assert (history + [p])[..|history|] == history;
  }

  /** What the loop does to the store for a frame with faces. */
  lemma StoreNext(history: seq<Processed>, p: Processed, found: Option<nat>)
    requires p.faces != []
    requires var store := Latest(Positives(history));
             if found.Some? then found.value < |store| && store[found.value].frame.cam == p.frame.cam
             else !Seen(p.frame.cam, store)
    ensures var store := Latest(Positives(history));
            Latest(Positives(history + [p])) == (if found.Some? then RemoveAt(store, found.value) else store) + [p]
  {
    var cam, store := p.frame.cam, Latest(Positives(history));
    HistoryAppend(history, p, cam);
    LatestAppend(Positives(history), p);
    LatestCameras(Positives(history), cam);
    hide Latest, Positives, Without, RemoveAt;
    if found.Some? {
      WithoutIsRemoveAt(store, found.value);
    } else {
      WithoutUnseen(store, cam);
    }
  }

  /********** The scheduler **********/

  datatype Outcome = Queued | QueueFull | ZeroDivisionError

  datatype Taken = TimedOut | Stale(frame: Frame) | Detecting(frame: Frame)

  class Scheduler {
    const maxsize: int
    var queue: seq<Entry>
    var store: seq<Processed>
    var counters: map<Camera, nat>
    var current: Option<Entry>
    ghost var offered: multiset<Frame>
    ghost var lost: Lost
    ghost var history: seq<Processed>

    constructor (maxsize: int)
      ensures Valid() && this.maxsize == maxsize && offered == multiset{} && history == [] && lost == Lost(multiset{}, multiset{}, multiset{})
      ensures queue == [] && current == None
    {
      this.maxsize := maxsize;
      queue, store, counters, current := [], [], map[], None;
      offered, lost, history := multiset{}, Lost(multiset{}, multiset{}, multiset{}), [];
    }

    /** `asyncio.Queue` bounds only a positive size. */
    ghost predicate Valid()
      reads this
    {
      && Conserved(offered, queue, current, lost, history)
      && Counted(counters, history)
      && Aged(queue)
      && (maxsize > 0 ==> |queue| <= maxsize)
      && store == Latest(Positives(history))
    }

    /** `_on_next`: the age is taken at `now`, the arrival time at `later`. */
    method OnNext(frame: Frame, now: real, later: real) returns (r: Outcome)
      requires Valid()
      modifies this
      ensures Valid() && offered == old(offered) + multiset{frame}
      ensures r == if now == frame.timeCapture then ZeroDivisionError
                   else if maxsize > 0 && |old(queue)| == maxsize then QueueFull else Queued
      ensures queue == old(queue) + if r != Queued then []
                                    else [Entry(Stamp(CountOf(history, frame.cam), now - frame.timeCapture), frame, later)]
      ensures lost == match r
                      case Queued => old(lost)
                      case QueueFull => old(lost).(full := old(lost).full + multiset{frame})
                      case ZeroDivisionError => old(lost).(failed := old(lost).failed + multiset{frame})
      ensures store == old(store) && counters == old(counters) && current == old(current) && history == old(history)
    {
      hide Latest, Positives, Conserved, CountOf, Handled;
      var age := now - frame.timeCapture;
      var count := if frame.cam in counters then counters[frame.cam] else 0;
      assert count == CountOf(history, frame.cam);
      hide Counted;
      var entry := Entry(Stamp(count, age), frame, later);
      ConservedQueued(offered, queue, current, lost, history, entry);
      offered := offered + multiset{frame};
      if age == 0.0 {
        lost := LostFailed(lost, frame);
        return ZeroDivisionError;
      }
      if maxsize > 0 && |queue| >= maxsize {
        lost := LostFull(lost, frame);
        return QueueFull;
      }
      queue := queue + [entry];
      return Queued;
    }

    /** The head of the loop of `_process_queue`: takes the first frame, and drops it when it has waited
        too long. */
    method Take(now: real) returns (r: Taken)
      requires Valid() && current == None
      modifies this
      ensures Valid() && offered == old(offered)
      ensures r == TimedOut <==> old(queue) == []
      ensures r == TimedOut ==> queue == [] && current == None && lost == old(lost)
      ensures old(queue) != [] ==>
                var first := Drain(old(queue))[0];
                && Drain(queue) == Drain(old(queue))[1..] && queue == RemoveAt(old(queue), MinIndex(old(queue)))
                && r == (if now - first.timeArrival >= 10.0 then Stale(first.frame) else Detecting(first.frame))
                && current == (if r.Detecting? then Some(first) else None)
                && lost == (if r.Stale? then old(lost).(stale := old(lost).stale + multiset{first.frame}) else old(lost))
      ensures store == old(store) && counters == old(counters) && history == old(history)
    {
      if queue == [] {
        return TimedOut;
      }
      hide Latest, Positives, Conserved, Counted, Handled, MinIndex;
      var i := MinIndex(queue);
      var first := queue[i];
      DrainFirst(queue, RemoveAt(queue, i));
      hide Drain, Aged, RemoveAt;
      ConservedTaken(offered, queue, lost, history, i);
      queue := RemoveAt(queue, i);
      if now - first.timeArrival >= MAX_SECONDS {
        lost := LostStale(lost, first.frame);
        return Stale(first.frame);
      }
      current := Some(first);
      return Detecting(first.frame);
    }

    /** The first stored detection of a camera. */
    method FindInStore(cam: Camera) returns (r: Option<nat>)
      ensures r == None <==> !Seen(cam, store)
      ensures r.Some? ==> r.value < |store| && store[r.value].frame.cam == cam && !Seen(cam, store[..r.value])
    {
      var i := 0;
      while i < |store|
        invariant 0 <= i <= |store| && forall j | 0 <= j < i :: store[j].frame.cam != cam
      {
        if store[i].frame.cam == cam {
          return Some(i);
        }
        i := i + 1;
      }
      return None;
    }

    /** The tail of the loop: detection is over. */
    method Finish(faces: seq<Face>)
      requires Valid() && current.Some?
      modifies this
      ensures Valid() && current == None && queue == old(queue) && offered == old(offered) && lost == old(lost)
      ensures history == old(history) + [Processed(old(current).value.frame, faces)]
      ensures faces == [] ==> store == old(store)
    {
      hide Latest, Positives, Conserved, Counted, Handled, CountOf, Aged, RemoveAt, Seen;
      var p := Processed(current.value.frame, faces);
      var cam := p.frame.cam;
      HistoryAppend(history, p, cam);
      CountedNext(counters, history, p);
      ConservedFinished(offered, queue, current.value, lost, history, p);
      if faces != [] {
        var found := FindInStore(cam);
        StoreNext(history, p, found);
        store := (if found.Some? then RemoveAt(store, found.value) else store) + [p];
      }
      counters := counters[cam := (if cam in counters then counters[cam] else 0) + 1];
      history := history + [p];
      current := None;
    }
  }

  /********** Runs **********/

  datatype Event = Arrive(frame: Frame, now: real, later: real) | Poll(now: real) | Detected(faces: seq<Face>)

  function Arrivals(evs: seq<Event>): multiset<Frame> {
    if evs == [] then multiset{}
    else Arrivals(evs[..|evs| - 1]) + if evs[|evs| - 1].Arrive? then multiset{evs[|evs| - 1].frame} else multiset{}
  }

  lemma ArrivalsNext(evs: seq<Event>, i: nat)
    requires i < |evs|
    ensures Arrivals(evs[..i + 1]) == Arrivals(evs[..i]) + if evs[i].Arrive? then multiset{evs[i].frame} else multiset{}
  {
    assert evs[..i + 1][..i] == evs[..i];
  }

  /** What is queued, in detection, given up and processed. */
  datatype Situation = Situation(queue: seq<Entry>, current: Option<Entry>, lost: Lost, history: seq<Processed>)

  const IDLE := Situation([], None, Lost(multiset{}, multiset{}, multiset{}), [])

  /** One event: a frame is queued, refused or failed; the idle loop takes the first frame or drops it after ten
      seconds; a detection ends. */
  function After(maxsize: int, s: Situation, ev: Event): (r: Situation)
    requires Aged(s.queue)
    ensures Aged(r.queue)
  {
    match ev
    case Arrive(frame, now, later) =>
      if now == frame.timeCapture then s.(lost := s.lost.(failed := s.lost.failed + multiset{frame}))
      else if maxsize > 0 && |s.queue| >= maxsize then s.(lost := s.lost.(full := s.lost.full + multiset{frame}))
      else s.(queue := s.queue + [Entry(Stamp(CountOf(s.history, frame.cam), now - frame.timeCapture), frame, later)])
    case Poll(now) =>
      if s.current.Some? || s.queue == [] then s
      else
        var first := s.queue[MinIndex(s.queue)];
        RemoveAtRest(s.queue, MinIndex(s.queue));
        var rest := s.(queue := RemoveAt(s.queue, MinIndex(s.queue)));
        if now - first.timeArrival >= 10.0 then rest.(lost := s.lost.(stale := s.lost.stale + multiset{first.frame}))
        else rest.(current := Some(first))
    case Detected(faces) =>
      if s.current.None? then s
      else s.(current := None, history := s.history + [Processed(s.current.value.frame, faces)])
  }

  function Outcomes(maxsize: int, s: Situation, evs: seq<Event>): (r: Situation)
    requires Aged(s.queue)
    ensures Aged(r.queue)
    decreases |evs|
  {
    if evs == [] then s else Outcomes(maxsize, After(maxsize, s, evs[0]), evs[1..])
  }

  lemma {:induction false} OutcomesNext(maxsize: int, s: Situation, evs: seq<Event>, ev: Event)
    requires Aged(s.queue)
    ensures Outcomes(maxsize, s, evs + [ev]) == After(maxsize, Outcomes(maxsize, s, evs), ev)
    decreases |evs|
  {
    hide After;
    var all := evs + [ev];
    if evs == [] {
      assert all[1..] == [];
      assert Outcomes(maxsize, After(maxsize, s, ev), all[1..]) == After(maxsize, s, ev);
    } else {
      assert all[1..] == evs[1..] + [ev] && all[0] == evs[0];
      OutcomesNext(maxsize, After(maxsize, s, evs[0]), evs[1..], ev);
    }
  }

  /** The loop turning once for each pair of a moment and the faces it finds. */
  function Turns(nows: seq<real>, faces: seq<seq<Face>>): seq<Event>
    requires |nows| == |faces|
  {
    if nows == [] then [] else [Poll(nows[0]), Detected(faces[0])] + Turns(nows[1..], faces[1..])
  }

  function Served(d: seq<Entry>, faces: seq<seq<Face>>): seq<Processed>
    requires |d| == |faces|
  {
    seq(|d|, i requires 0 <= i < |d| => Processed(d[i].frame, faces[i]))
  }

  /** One turn of the loop in time. */
  lemma OneTurn(maxsize: int, s: Situation, now: real, faces: seq<Face>, evs: seq<Event>)
    requires Aged(s.queue) && s.current == None && s.queue != [] && now - s.queue[MinIndex(s.queue)].timeArrival < 10.0
    ensures var m := MinIndex(s.queue);
            && Aged(RemoveAt(s.queue, m))
            && Outcomes(maxsize, s, [Poll(now), Detected(faces)] + evs)
            == Outcomes(maxsize, s.(queue := RemoveAt(s.queue, m), history := s.history + [Processed(s.queue[m].frame, faces)]), evs)
  {
    RemoveAtRest(s.queue, MinIndex(s.queue));
    TwoEvents(maxsize, s, Poll(now), Detected(faces), evs);
  }

  /** With no arrivals meanwhile and turns in time, the loop processes every queued frame, in the order in which the
      queue drains. */
  lemma {:induction false} ServedInOrder(maxsize: int, s: Situation, nows: seq<real>, faces: seq<seq<Face>>)
    requires Aged(s.queue) && s.current == None && |nows| == |faces| == |s.queue|
    requires forall i, e | 0 <= i < |nows| && e in s.queue :: nows[i] - e.timeArrival < 10.0
    ensures |Drain(s.queue)| == |s.queue|
    ensures Outcomes(maxsize, s, Turns(nows, faces)) == s.(queue := [], history := s.history + Served(Drain(s.queue), faces))
    decreases |nows|
  {
    hide After, MinIndex, RemoveAt, Aged, Served;
    DrainPermutes(s.queue);
    if nows == [] {
      ServedNone(Drain(s.queue), faces);
      assert s.history + [] == s.history;
    } else {
      var m := MinIndex(s.queue);
      var rest := RemoveAt(s.queue, m);
      var now, p := nows[0], Processed(s.queue[m].frame, faces[0]);
      RemoveAtRest(s.queue, m);
      DrainFirst(s.queue, rest);
      OneTurn(maxsize, s, now, faces[0], Turns(nows[1..], faces[1..]));
      ServedInOrder(maxsize, s.(queue := rest, history := s.history + [p]), nows[1..], faces[1..]);
      ServedCons(Drain(s.queue), faces);
      assert s.history + [p] + Served(Drain(rest), faces[1..]) == s.history + ([p] + Served(Drain(rest), faces[1..]));
    }
  }

  lemma ServedNone(d: seq<Entry>, faces: seq<seq<Face>>)
    requires |d| == |faces| == 0
    ensures Served(d, faces) == []
  {
  }

  lemma ServedCons(d: seq<Entry>, faces: seq<seq<Face>>)
    requires |d| == |faces| > 0
    ensures Served(d, faces) == [Processed(d[0].frame, faces[0])] + Served(d[1..], faces[1..])
  {
  }

  lemma TwoEvents(maxsize: int, s: Situation, a: Event, b: Event, evs: seq<Event>)
    requires Aged(s.queue)
    ensures Outcomes(maxsize, s, [a, b] + evs) == Outcomes(maxsize, After(maxsize, After(maxsize, s, a), b), evs)
  {
    hide After;
    var all := [a, b] + evs;
    assert all[1..] == [b] + evs && all[1..][1..] == evs && all[1..][0] == b;
  }

  /** The situation of a scheduler is the given one. */
  ghost predicate IsIn(d: Scheduler, s: Situation)
    reads d
  {
    d.queue == s.queue && d.current == s.current && d.lost == s.lost && d.history == s.history
  }

  /** One event of a run. */
  method Perform(d: Scheduler, ev: Event, ghost s: Situation)
    requires d.Valid() && Aged(s.queue) && IsIn(d, s)
    modifies d
    ensures d.Valid() && IsIn(d, After(d.maxsize, s, ev))
    ensures d.offered == old(d.offered) + if ev.Arrive? then multiset{ev.frame} else multiset{}
  {
    hide Waiting, Handled, CountOf, Drain, Latest, Positives, Conserved, Counted, Seen, RemoveAt, MinIndex, Aged;
    match ev {
      case Arrive(frame, now, later) =>
        var _ := d.OnNext(frame, now, later);
      case Poll(now) =>
        if d.current.None? {
          FirstOfDrain(d.queue);
          var _ := d.Take(now);
        }
      case Detected(faces) =>
        if d.current.Some? {
          d.Finish(faces);
        }
    }
  }

  lemma FirstOfDrain(q: seq<Entry>)
    requires Aged(q)
    ensures q != [] ==> Drain(q) != [] && Drain(q)[0] == q[MinIndex(q)]
  {
  }

  lemma NothingYet(maxsize: int)
    ensures Aged([]) && Arrivals([]) == multiset{} && Outcomes(maxsize, IDLE, []) == IDLE
  {
  }

  /** Any run: frames arrive at any moment, in particular while another is in detection; the loop takes a frame only
      when it has none. The scheduler ends where the events lead. */
  method Run(maxsize: int, evs: seq<Event>) returns (d: Scheduler)
    ensures fresh(d) && d.Valid() && d.maxsize == maxsize && d.offered == Arrivals(evs)
    ensures Aged([]) && IsIn(d, Outcomes(maxsize, IDLE, evs))
  {
    hide Arrivals, After, Outcomes, Scheduler.Valid, Aged;
    NothingYet(maxsize);
    d := new Scheduler(maxsize);
    assert evs[..0] == [];
    var i := 0;
    while i < |evs|
      invariant 0 <= i <= |evs| && fresh(d) && d.Valid() && d.maxsize == maxsize && d.offered == Arrivals(evs[..i])
      invariant IsIn(d, Outcomes(maxsize, IDLE, evs[..i]))
    {
      ArrivalsNext(evs, i);
      assert evs[..i + 1] == evs[..i] + [evs[i]];
      OutcomesNext(maxsize, IDLE, evs[..i], evs[i]);
      Perform(d, evs[i], Outcomes(maxsize, IDLE, evs[..i]));
      i := i + 1;
    }
    assert evs[..|evs|] == evs;
  }
}
