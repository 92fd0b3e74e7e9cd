/** How processes share one CPU benchmark through a Redis key (wotemu/cli/limits.py): any number of
    processes, every interleaving of the Redis commands, exceptions, crashes and key expiry. */
module PolyProtocol {
  import opened Collections

  /** A fitted line, speed = slope * share + intercept. */
  datatype Poly = Poly(slope: real, intercept: real)

  /** `poly1d` truthiness is its order: a constant counts as missing. */
  predicate Truthy(p: Poly) { p.slope != 0.0 }

  /** The key: absent, holding the JSON `null` of the lock, or holding coefficients. */
  datatype Key = Absent | Placeholder | Published(poly: Poly)

  datatype Phase =
    | Start
    | Chosen                // its GET found no key; the lock comes next
    | Locked                // its conditional SET is done, whether or not it took effect
    | Measured(poly: Poly)  // benchmark done, publication pending
    | Built(poly: Poly)     // returned as designated builder
    | Polling | Asleep
    | Waited(poly: Poly)    // returned what it read
    | Failed                // an exception, or a process told to stay local
    | Local(poly: Poly)     // fell back to its own benchmark
    | Dead

  datatype State = State(key: Key, procs: map<nat, Phase>)

  datatype Action =
    | Get(p: nat) | Lock(p: nat) | Measure(p: nat, poly: Poly) | Publish(p: nat)
    | Poll(p: nat) | Wake(p: nat, timedOut: bool)
    | Raise(p: nat) | Fallback(p: nat, poly: Poly) | Die(p: nat) | Expire

  function Init(procs: set<nat>): State { State(Absent, map p | p in procs :: Start) }

  /** The action's process, when it has one, is in the phase the action needs. */
  predicate Enabled(s: State, a: Action) {
    match a
    case Expire => true
    case Get(p) => p in s.procs && s.procs[p] == Start
    case Lock(p) => p in s.procs && s.procs[p] == Chosen
    case Measure(p, _) => p in s.procs && s.procs[p] == Locked
    case Publish(p) => p in s.procs && s.procs[p].Measured?
    case Poll(p) => p in s.procs && s.procs[p] == Polling
    case Wake(p, _) => p in s.procs && s.procs[p] == Asleep
    case Raise(p) => p in s.procs && (s.procs[p] in {Start, Chosen, Locked, Polling, Asleep} || s.procs[p].Measured?)
    case Fallback(p, _) => p in s.procs && (s.procs[p] == Failed || (s.procs[p].Built? && !Truthy(s.procs[p].poly)))
    case Die(p) => p in s.procs
  }

  function Step(s: State, a: Action): State
    requires Enabled(s, a)
  {
    match a
    case Expire => s.(key := Absent)
    case Get(p) => s.(procs := s.procs[p := if s.key == Absent then Chosen else Polling])
    case Lock(p) => State(if s.key == Absent then Placeholder else s.key, s.procs[p := Locked])
    case Measure(p, poly) => s.(procs := s.procs[p := Measured(poly)])
    case Publish(p) => State(Published(s.procs[p].poly), s.procs[p := Built(s.procs[p].poly)])
    case Poll(p) => s.(procs := s.procs[p := if s.key.Published? && Truthy(s.key.poly) then Waited(s.key.poly) else Asleep])
    case Wake(p, timedOut) => s.(procs := s.procs[p := if timedOut then Failed else Polling])
    case Raise(p) => s.(procs := s.procs[p := Failed])
    case Fallback(p, poly) => s.(procs := s.procs[p := Local(poly)])
    case Die(p) => s.(procs := s.procs[p := Dead])
  }

  /** The state a run reaches; none when some action is not enabled in its turn. */
  function Run(procs: set<nat>, acts: seq<Action>): Option<State> {
    if acts == [] then Some(Init(procs))
    else
      var before := Run(procs, acts[..|acts| - 1]);
      if before.Some? && Enabled(before.value, acts[|acts| - 1])
      then Some(Step(before.value, acts[|acts| - 1]))
      else None
  }

  predicate Valid(procs: set<nat>, acts: seq<Action>) { Run(procs, acts).Some? }

  lemma {:induction false} ValidPrefix(procs: set<nat>, acts: seq<Action>, k: nat)
    requires Valid(procs, acts) && k <= |acts|
    ensures Valid(procs, acts[..k])
    decreases |acts|
  {
    if k < |acts| {
      assert acts[..|acts| - 1][..k] == acts[..k];
      ValidPrefix(procs, acts[..|acts| - 1], k);
    } else {
      assert acts[..k] == acts;
    }
  }

  /** The state before action `k` (after all of them for k = |acts|). */
  function At(procs: set<nat>, acts: seq<Action>, k: nat): State
    requires Valid(procs, acts) && k <= |acts|
  {
    ValidPrefix(procs, acts, k);
    Run(procs, acts[..k]).value
  }

  lemma AtNext(procs: set<nat>, acts: seq<Action>, k: nat)
    requires Valid(procs, acts) && k < |acts|
    ensures Enabled(At(procs, acts, k), acts[k]) && At(procs, acts, k + 1) == Step(At(procs, acts, k), acts[k])
  {
    ValidPrefix(procs, acts, k + 1);
    assert acts[..k + 1][..k] == acts[..k];
  }

  function Rank(k: Key): nat {
    match k
    case Absent => 0
    case Placeholder => 1
    case Published(_) => 2
  }

  predicate NoExpiry(acts: seq<Action>, i: nat, j: nat)
    requires i <= j <= |acts|
  {
    forall k | i <= k < j :: acts[k] != Expire
  }

  /** Between expiries the key only moves forward: in particular the lock of a late racer never
      replaces a published polynomial. */
  lemma {:induction false} KeyMovesForward(procs: set<nat>, acts: seq<Action>, i: nat, j: nat)
    requires Valid(procs, acts) && i <= j <= |acts| && NoExpiry(acts, i, j)
    ensures Rank(At(procs, acts, i).key) <= Rank(At(procs, acts, j).key)
  {
    if i < j {
      KeyMovesForward(procs, acts, i, j - 1);
      AtNext(procs, acts, j - 1);
    }
  }

  predicate LockedBefore(acts: seq<Action>, k: nat)
    requires k <= |acts|
  {
    exists i | 0 <= i < k :: acts[i].Lock?
  }

  predicate Committed(ph: Phase) { ph == Locked || ph.Measured? || ph.Built? }

  /** Without expiry, the key is absent exactly until the first lock, and a process beyond its lock has
      taken one. */
  lemma {:induction false} AbsentUntilLocked(procs: set<nat>, acts: seq<Action>, k: nat)
    requires Valid(procs, acts) && k <= |acts| && NoExpiry(acts, 0, k)
    ensures At(procs, acts, k).key == Absent <==> !LockedBefore(acts, k)
    ensures forall p | p in At(procs, acts, k).procs && Committed(At(procs, acts, k).procs[p]) :: LockedBefore(acts, k)
  {
    if k > 0 {
      AbsentUntilLocked(procs, acts, k - 1);
      AtNext(procs, acts, k - 1);
      assert LockedBefore(acts, k) <==> LockedBefore(acts, k - 1) || acts[k - 1].Lock?;
    }
  }

  /** Without expiry the placeholder is never skipped: no single action publishes on an absent key. */
  lemma PlaceholderFirst(procs: set<nat>, acts: seq<Action>, k: nat)
    requires Valid(procs, acts) && k < |acts| && NoExpiry(acts, 0, k + 1)
    ensures Rank(At(procs, acts, k + 1).key) <= Rank(At(procs, acts, k).key) + 1
  {
    AbsentUntilLocked(procs, acts, k);
    AtNext(procs, acts, k);
  }

  /** A process is designated builder when its GET found no key. */
  ghost predicate Designated(procs: set<nat>, acts: seq<Action>, p: nat)
    requires Valid(procs, acts)
  {
    exists i | 0 <= i < |acts| :: acts[i] == Get(p) && At(procs, acts, i).key == Absent
  }

  /** Without expiry, exactly the processes whose GET comes before every lock are designated. */
  lemma DesignatedIff(procs: set<nat>, acts: seq<Action>, p: nat)
    requires Valid(procs, acts) && NoExpiry(acts, 0, |acts|)
    ensures Designated(procs, acts, p) <==> exists i | 0 <= i < |acts| :: acts[i] == Get(p) && !LockedBefore(acts, i)
  {
    forall i | 0 <= i < |acts|
      ensures At(procs, acts, i).key == Absent <==> !LockedBefore(acts, i)
    {
      AbsentUntilLocked(procs, acts, i);
    }
  }

  predicate Building(ph: Phase) { ph == Chosen || Committed(ph) }

  /** In every run, expiries included, whoever builds was designated by its own GET. */
  lemma {:induction false} BuildersWereDesignated(procs: set<nat>, acts: seq<Action>, k: nat, p: nat)
    requires Valid(procs, acts) && k <= |acts|
    requires p in At(procs, acts, k).procs && Building(At(procs, acts, k).procs[p])
    ensures exists i | 0 <= i < k :: acts[i] == Get(p) && At(procs, acts, i).key == Absent
  {
    if k > 0 {
      AtNext(procs, acts, k - 1);
      if Building(At(procs, acts, k - 1).procs[p]) {
        BuildersWereDesignated(procs, acts, k - 1, p);
      } else {
        assert acts[k - 1] == Get(p) && At(procs, acts, k - 1).key == Absent;
      }
    }
  }

  /** Every benchmark of a designated builder follows a GET of its own that found no key; without
      expiry, one made before the first write to the key. */
  lemma MeasuredByDesignated(procs: set<nat>, acts: seq<Action>, k: nat, p: nat, poly: Poly)
    requires Valid(procs, acts) && k < |acts| && acts[k] == Measure(p, poly)
    ensures exists i | 0 <= i < k :: acts[i] == Get(p) && At(procs, acts, i).key == Absent
                                     && (NoExpiry(acts, 0, k) ==> !LockedBefore(acts, i))
  {
    AtNext(procs, acts, k);
    BuildersWereDesignated(procs, acts, k, p);
    var i :| 0 <= i < k && acts[i] == Get(p) && At(procs, acts, i).key == Absent;
    if NoExpiry(acts, 0, k) {
      AbsentUntilLocked(procs, acts, i);
    }
  }

  /** Process `q` found no key at `h`, measured the polynomial at `i` and published it at `j`. */
  ghost predicate PublishedBy(procs: set<nat>, acts: seq<Action>, q: nat, h: nat, i: nat, j: nat, poly: Poly)
    requires Valid(procs, acts)
  {
    && h < i < j < |acts| && acts[h] == Get(q) && At(procs, acts, h).key == Absent
    && acts[i] == Measure(q, poly) && acts[j] == Publish(q)
  }

  /** A polynomial was published by a designated builder before action `k`. */
  ghost predicate PublishedBefore(procs: set<nat>, acts: seq<Action>, k: nat, poly: Poly)
    requires Valid(procs, acts) && k <= |acts|
  {
    exists q: nat, h: nat, i: nat, j: nat | j < k :: PublishedBy(procs, acts, q, h, i, j, poly)
  }

  lemma {:induction false} MeasurementPending(procs: set<nat>, acts: seq<Action>, k: nat, q: nat)
    requires Valid(procs, acts) && k <= |acts|
    requires q in At(procs, acts, k).procs && At(procs, acts, k).procs[q].Measured?
    ensures exists h, i | 0 <= h < i < k :: acts[h] == Get(q) && At(procs, acts, h).key == Absent
                                            && acts[i] == Measure(q, At(procs, acts, k).procs[q].poly)
  {
    if k > 0 {
      AtNext(procs, acts, k - 1);
      var poly := At(procs, acts, k).procs[q].poly;
      if At(procs, acts, k - 1).procs[q] == Measured(poly) {
        MeasurementPending(procs, acts, k - 1, q);
      } else {
        assert acts[k - 1] == Measure(q, poly);
        MeasuredByDesignated(procs, acts, k - 1, q, poly);
        var h :| 0 <= h < k - 1 && acts[h] == Get(q) && At(procs, acts, h).key == Absent;
      }
    }
  }

  lemma PublishStep(procs: set<nat>, acts: seq<Action>, k: nat, q: nat)
    requires Valid(procs, acts) && k < |acts| && acts[k] == Publish(q)
    ensures q in At(procs, acts, k).procs && At(procs, acts, k).procs[q].Measured?
    ensures PublishedBefore(procs, acts, k + 1, At(procs, acts, k).procs[q].poly)
  {
    AtNext(procs, acts, k);
    MeasurementPending(procs, acts, k, q);
    var poly := At(procs, acts, k).procs[q].poly;
    var h, i :| 0 <= h < i < k && acts[h] == Get(q) && At(procs, acts, h).key == Absent && acts[i] == Measure(q, poly);
    assert PublishedBy(procs, acts, q, h, i, k, poly);
  }

  lemma PublishedKey(s: State, a: Action)
    requires Enabled(s, a) && Step(s, a).key.Published?
    ensures Step(s, a).key == if a.Publish? then Published(s.procs[a.p].poly) else s.key
  {
  }

  /** In every run, expiries included, the key holds only polynomials published by designated builders. */
  lemma {:induction false} KeyWasPublished(procs: set<nat>, acts: seq<Action>, k: nat)
    requires Valid(procs, acts) && k <= |acts| && At(procs, acts, k).key.Published?
    ensures PublishedBefore(procs, acts, k, At(procs, acts, k).key.poly)
  {
    if k > 0 {
      AtNext(procs, acts, k - 1);
      PublishedKey(At(procs, acts, k - 1), acts[k - 1]);
      if acts[k - 1].Publish? {
        PublishStep(procs, acts, k - 1, acts[k - 1].p);
      } else {
        KeyWasPublished(procs, acts, k - 1);
      }
    }
  }

  lemma WaitedFrom(s: State, a: Action, p: nat)
    requires Enabled(s, a) && p in Step(s, a).procs && Step(s, a).procs[p].Waited?
    ensures p in s.procs
    ensures s.procs[p] == Step(s, a).procs[p] ||
            (a == Poll(p) && s.key == Published(Step(s, a).procs[p].poly) && Truthy(s.key.poly))
  {
  }

  /** In every run, expiries included, what a waiter returns was published earlier by a designated
      builder, and is never the placeholder or a constant. */
  lemma {:induction false} WaiterReadsPublished(procs: set<nat>, acts: seq<Action>, k: nat, p: nat)
    requires Valid(procs, acts) && k <= |acts|
    requires p in At(procs, acts, k).procs && At(procs, acts, k).procs[p].Waited?
    ensures Truthy(At(procs, acts, k).procs[p].poly)
    ensures PublishedBefore(procs, acts, k, At(procs, acts, k).procs[p].poly)
  {
    if k > 0 {
      AtNext(procs, acts, k - 1);
      WaitedFrom(At(procs, acts, k - 1), acts[k - 1], p);
      if At(procs, acts, k - 1).procs[p].Waited? {
        WaiterReadsPublished(procs, acts, k - 1, p);
      } else {
        KeyWasPublished(procs, acts, k - 1);
      }
    }
  }

  lemma BuiltFrom(s: State, a: Action, p: nat)
    requires Enabled(s, a) && p in Step(s, a).procs && Step(s, a).procs[p].Built?
    ensures p in s.procs
    ensures s.procs[p] == Step(s, a).procs[p] ||
            (a == Publish(p) && s.procs[p] == Measured(Step(s, a).procs[p].poly)
             && Step(s, a).key == Published(Step(s, a).procs[p].poly))
  {
  }

  /** In every run, expiries included, what a designated builder returns is the polynomial it measured itself and
      published: the key held it right after. */
  lemma {:induction false} BuilderReturnsPublished(procs: set<nat>, acts: seq<Action>, k: nat, p: nat)
    requires Valid(procs, acts) && k <= |acts|
    requires p in At(procs, acts, k).procs && At(procs, acts, k).procs[p].Built?
    ensures var poly := At(procs, acts, k).procs[p].poly;
            exists h: nat, i: nat, j: nat | j < k :: PublishedBy(procs, acts, p, h, i, j, poly)
                                                   && At(procs, acts, j + 1).key == Published(poly)
  {
    if k > 0 {
      var poly := At(procs, acts, k).procs[p].poly;
      AtNext(procs, acts, k - 1);
      BuiltFrom(At(procs, acts, k - 1), acts[k - 1], p);
      if At(procs, acts, k - 1).procs[p].Built? {
        BuilderReturnsPublished(procs, acts, k - 1, p);
        var h: nat, i: nat, j: nat :| j < k - 1 && PublishedBy(procs, acts, p, h, i, j, poly)
                                      && At(procs, acts, j + 1).key == Published(poly);
      } else {
        MeasurementPending(procs, acts, k - 1, p);
        var h, i :| 0 <= h < i < k - 1 && acts[h] == Get(p) && At(procs, acts, h).key == Absent && acts[i] == Measure(p, poly);
        assert PublishedBy(procs, acts, p, h, i, k - 1, poly);
      }
    }
  }

  /********** The program of one process **********/

  /** The process that acts, none for an expiry of the key. */
  function Actor(a: Action): Option<nat> { if a.Expire? then None else Some(a.p) }

  /** Action `i` is the last one of process `p` before action `k`. */
  predicate LastOf(acts: seq<Action>, i: nat, k: nat, p: nat)
    requires k <= |acts|
  {
    i < k && Actor(acts[i]) == Some(p) && forall j | i < j < k :: Actor(acts[j]) != Some(p)
  }

  /** What a process is doing after its own action, whose Redis command saw the key: nobody else decides. */
  predicate Follows(a: Action, seen: Key, before: Phase, after: Phase) {
    match a
    case Get(_) => after == if seen == Absent then Chosen else Polling
    case Lock(_) => after == Locked
    case Measure(_, poly) => after == Measured(poly)
    case Publish(_) => before.Measured? && after == Built(before.poly)
    case Poll(_) => if seen.Published? && seen.poly.slope != 0.0 then after == Waited(seen.poly) else after == Asleep
    case Wake(_, timedOut) => after == if timedOut then Failed else Polling
    case Raise(_) => after == Failed
    case Fallback(_, poly) => after == Local(poly)
    case Die(_) => after == Dead
    case Expire => false
  }

  lemma OwnStep(s: State, a: Action, p: nat)
    requires Enabled(s, a) && Actor(a) == Some(p)
    ensures p in s.procs && Step(s, a).procs.Keys == s.procs.Keys && Follows(a, s.key, s.procs[p], Step(s, a).procs[p])
  {
  }

  lemma OtherStep(s: State, a: Action, p: nat)
    requires Enabled(s, a) && Actor(a) != Some(p) && p in s.procs
    ensures Step(s, a).procs.Keys == s.procs.Keys && Step(s, a).procs[p] == s.procs[p]
  {
  }

  lemma AtStart(procs: set<nat>, acts: seq<Action>)
    requires Valid(procs, acts)
    ensures At(procs, acts, 0) == Init(procs)
  {
    assert acts[..0] == [];
  }

  lemma {:induction false} NoneLost(procs: set<nat>, acts: seq<Action>, k: nat, p: nat)
    requires Valid(procs, acts) && k <= |acts| && p in procs
    ensures p in At(procs, acts, k).procs
    ensures (forall i | 0 <= i < k :: Actor(acts[i]) != Some(p)) ==> At(procs, acts, k).procs[p] == Start
  {
    hide At, Valid, Step, Enabled, Follows, Actor;
    if k == 0 {
      AtStart(procs, acts);
    } else {
      NoneLost(procs, acts, k - 1, p);
      AtNext(procs, acts, k - 1);
      if Actor(acts[k - 1]) == Some(p) {
        OwnStep(At(procs, acts, k - 1), acts[k - 1], p);
      } else {
        OtherStep(At(procs, acts, k - 1), acts[k - 1], p);
      }
    }
  }

  /** Every process is where its own last action left it, whatever the others did since; one that did nothing has not
      started. */
  lemma {:induction false} OwnActionsDecide(procs: set<nat>, acts: seq<Action>, i: nat, k: nat, p: nat)
    requires Valid(procs, acts) && i < k <= |acts| && p in procs && LastOf(acts, i, k, p)
    ensures p in At(procs, acts, i).procs && p in At(procs, acts, k).procs
    ensures Follows(acts[i], At(procs, acts, i).key, At(procs, acts, i).procs[p], At(procs, acts, k).procs[p])
  {
    hide At, Valid, Step, Enabled, Follows, Actor;
    AtNext(procs, acts, k - 1);
    if i == k - 1 {
      OwnStep(At(procs, acts, i), acts[i], p);
    } else {
      OwnActionsDecide(procs, acts, i, k - 1, p);
      OtherStep(At(procs, acts, k - 1), acts[k - 1], p);
    }
  }

  /** What the program of a process allows after its last action, whose Redis command saw the key, from the phase before:
      it asks once; only after finding no key does it lock, measure and publish, in this order; otherwise it polls, sleeps
      after a poll in vain, and polls again unless it timed out; it falls back to a benchmark of its own after an
      exception, a timeout or a constant of its own; until it has returned or failed it may raise, and it may die. */
  predicate MayFollow(last: Option<Action>, seen: Key, before: Phase, a: Action) {
    match a
    case Get(_) => last == None
    case Lock(_) => last.Some? && last.value.Get? && seen == Absent
    case Measure(_, _) => last.Some? && last.value.Lock?
    case Publish(_) => last.Some? && last.value.Measure?
    case Poll(_) => last.Some? && ((last.value.Get? && seen != Absent) || (last.value.Wake? && !last.value.timedOut))
    case Wake(_, _) => last.Some? && last.value.Poll? && !(seen.Published? && seen.poly.slope != 0.0)
    case Fallback(_, _) =>
      last.Some? && (last.value.Raise? || (last.value.Wake? && last.value.timedOut)
                     || (last.value.Publish? && before.Measured? && before.poly.slope == 0.0))
    case Raise(_) => last == None || !(last.value.Raise? || last.value.Publish? || last.value.Fallback? || last.value.Die?
                                       || (last.value.Wake? && last.value.timedOut)
                                       || (last.value.Poll? && seen.Published? && seen.poly.slope != 0.0))
    case Die(_) => true
    case Expire => true
  }

  lemma EnabledAfter(s: State, a: Action, p: nat, last: Action, seen: Key, before: Phase)
    requires Actor(a) == Some(p) && p in s.procs && Follows(last, seen, before, s.procs[p])
    ensures Enabled(s, a) <==> MayFollow(Some(last), seen, before, a)
  {
  }

  lemma EnabledFirst(s: State, a: Action, p: nat)
    requires Actor(a) == Some(p) && p in s.procs && s.procs[p] == Start
    ensures Enabled(s, a) <==> MayFollow(None, Absent, Start, a)
  {
  }

  /** In every run a process may take exactly the actions that its program allows next, whatever the others do. */
  lemma ProgramOrder(procs: set<nat>, acts: seq<Action>, k: nat, p: nat, a: Action)
    requires Valid(procs, acts) && k <= |acts| && p in procs && Actor(a) == Some(p)
    ensures (forall i | 0 <= i < k :: Actor(acts[i]) != Some(p)) ==>
              (Enabled(At(procs, acts, k), a) <==> MayFollow(None, Absent, Start, a))
    ensures forall i | 0 <= i < k && LastOf(acts, i, k, p) ::
              p in At(procs, acts, i).procs
              && (Enabled(At(procs, acts, k), a)
                  <==> MayFollow(Some(acts[i]), At(procs, acts, i).key, At(procs, acts, i).procs[p], a))
  {
    hide At, Valid, Step, Enabled, Follows, Actor, MayFollow, LastOf;
    NoneLost(procs, acts, k, p);
    var s := At(procs, acts, k);
    if s.procs[p] == Start {
      EnabledFirst(s, a, p);
    }
    forall i | 0 <= i < k && LastOf(acts, i, k, p)
      ensures p in At(procs, acts, i).procs
      ensures Enabled(s, a) <==> MayFollow(Some(acts[i]), At(procs, acts, i).key, At(procs, acts, i).procs[p], a)
    {
      OwnActionsDecide(procs, acts, i, k, p);
      EnabledAfter(s, a, p, acts[i], At(procs, acts, i).key, At(procs, acts, i).procs[p]);
    }
  }

  /** The key may expire at any moment. */
  lemma MayExpire(procs: set<nat>, acts: seq<Action>)
    requires Valid(procs, acts)
    ensures Valid(procs, acts + [Expire]) && At(procs, acts + [Expire], |acts| + 1).key == Absent
  {
    var more := acts + [Expire];
    assert more[..|acts|] == acts && more[..|more|] == more;
  }

  predicate Decisive(a: Action) { a.Publish? || a.Expire? }

  predicate LockedSince(acts: seq<Action>, from: nat, k: nat)
    requires from <= k <= |acts|
  {
    exists i | from <= i < k :: acts[i].Lock?
  }

  lemma StepKey(s: State, a: Action)
    requires Enabled(s, a)
    ensures a.Publish? ==> a.p in s.procs && s.procs[a.p].Measured? && Step(s, a).key == Published(s.procs[a.p].poly)
    ensures a.Expire? ==> Step(s, a).key == Absent
    ensures a.Lock? ==> Step(s, a).key == if s.key == Absent then Placeholder else s.key
    ensures !Decisive(a) && !a.Lock? ==> Step(s, a).key == s.key
  {
  }

  /** What the key holds is decided by the last publication or expiry before, and without a publication by whether a
      lock came since. */
  lemma {:induction false} KeyIs(procs: set<nat>, acts: seq<Action>, i: nat, k: nat)
    requires Valid(procs, acts) && i <= k <= |acts| && forall j | i <= j < k :: !Decisive(acts[j])
    requires i == 0 || Decisive(acts[i - 1])
    ensures i == 0 || acts[i - 1].Expire? ==> At(procs, acts, k).key == if LockedSince(acts, i, k) then Placeholder else Absent
    ensures i > 0 && acts[i - 1].Publish? ==>
              var s := At(procs, acts, i - 1);
              && acts[i - 1].p in s.procs && s.procs[acts[i - 1].p].Measured?
              && At(procs, acts, k).key == Published(s.procs[acts[i - 1].p].poly)
  {
    hide At, Valid, Step, Enabled;
    if k > i {
      KeyIs(procs, acts, i, k - 1);
      AtNext(procs, acts, k - 1);
      StepKey(At(procs, acts, k - 1), acts[k - 1]);
      assert LockedSince(acts, i, k) <==> LockedSince(acts, i, k - 1) || acts[k - 1].Lock?;
    } else if i == 0 {
      AtStart(procs, acts);
    } else {
      AtNext(procs, acts, i - 1);
      StepKey(At(procs, acts, i - 1), acts[i - 1]);
    }
  }

  predicate MeasuresTruthy(acts: seq<Action>) {
    forall k | 0 <= k < |acts| && acts[k].Measure? :: Truthy(acts[k].poly)
  }

  /** Once published and until the key expires, no poll is in vain: when no builder fits a constant,
      every later poll returns. */
  lemma PollsReturn(procs: set<nat>, acts: seq<Action>, j: nat, m: nat, p: nat)
    requires Valid(procs, acts) && j < m < |acts| && acts[j].Publish? && acts[m] == Poll(p)
    requires NoExpiry(acts, j, m) && MeasuresTruthy(acts)
    ensures p in At(procs, acts, m + 1).procs && At(procs, acts, m + 1).procs[p].Waited?
  {
    AtNext(procs, acts, j);
    KeyMovesForward(procs, acts, j + 1, m);
    KeyWasPublished(procs, acts, m);
    AtNext(procs, acts, m);
    var q: nat, h: nat, i: nat, l: nat :| l < m && PublishedBy(procs, acts, q, h, i, l, At(procs, acts, m).key.poly);
  }

  /** At most one process benchmarks as designated builder. */
  ghost predicate OneBuilder(procs: set<nat>, acts: seq<Action>)
    requires Valid(procs, acts)
  {
    forall p, q | Designated(procs, acts, p) && Designated(procs, acts, q) :: p == q
  }

  /** The lock is taken before a second process asks. */
  predicate LockInTime(acts: seq<Action>) {
    forall i, j | 0 <= i < j < |acts| && acts[i].Get? && acts[j].Get? && acts[i].p != acts[j].p :: LockedBefore(acts, j)
  }

  /** The protocol means to run one benchmark at a time. Without expiry there is a single builder
      exactly when the first lock comes before any second process's GET. */
  lemma OneBuilderIff(procs: set<nat>, acts: seq<Action>)
    requires Valid(procs, acts) && NoExpiry(acts, 0, |acts|)
    ensures OneBuilder(procs, acts) <==> LockInTime(acts)
  {
    forall p { DesignatedIff(procs, acts, p); }
    if OneBuilder(procs, acts) {
      forall i, j | 0 <= i < j < |acts| && acts[i].Get? && acts[j].Get? && acts[i].p != acts[j].p
        ensures LockedBefore(acts, j)
      {
        if !LockedBefore(acts, i) {
          assert acts[i] == Get(acts[i].p) && Designated(procs, acts, acts[i].p);
          assert acts[j] == Get(acts[j].p) && !Designated(procs, acts, acts[j].p);
        }
      }
    }
    if LockInTime(acts) {
      forall p, q | Designated(procs, acts, p) && Designated(procs, acts, q)
        ensures p == q
      {
        var i :| 0 <= i < |acts| && acts[i] == Get(p) && !LockedBefore(acts, i);
        var j :| 0 <= j < |acts| && acts[j] == Get(q) && !LockedBefore(acts, j);
      }
    }
  }

  /** Both processes ask before either locks: both benchmark. */
  const RACE: seq<Action> := [Get(0), Get(1), Lock(0), Lock(1), Measure(0, Poly(1.0, 0.0)), Measure(1, Poly(2.0, 0.0))]

  lemma TwoBuilders()
    ensures Valid({0, 1}, RACE) && !OneBuilder({0, 1}, RACE)
  {
    hide Run, OneBuilder;
    var p, q := Measure(0, Poly(1.0, 0.0)), Measure(1, Poly(2.0, 0.0));
    RunStarts({0, 1});
    RunNext({0, 1}, [], Get(0));
    RunNext({0, 1}, [] + [Get(0)], Get(1));
    RunNext({0, 1}, [] + [Get(0)] + [Get(1)], Lock(0));
    RunNext({0, 1}, [] + [Get(0)] + [Get(1)] + [Lock(0)], Lock(1));
    RunNext({0, 1}, [] + [Get(0)] + [Get(1)] + [Lock(0)] + [Lock(1)], p);
    RunNext({0, 1}, [] + [Get(0)] + [Get(1)] + [Lock(0)] + [Lock(1)] + [p], q);
    assert RACE == [] + [Get(0)] + [Get(1)] + [Lock(0)] + [Lock(1)] + [p] + [q];
    OneBuilderIff({0, 1}, RACE);
    assert RACE[0].Get? && RACE[1].Get? && !LockedBefore(RACE, 1);
  }

  lemma RunStarts(procs: set<nat>)
    ensures Run(procs, []) == Some(Init(procs))
  {
  }

  lemma RunNext(procs: set<nat>, acts: seq<Action>, a: Action)
    requires Run(procs, acts).Some? && Enabled(Run(procs, acts).value, a)
    ensures Run(procs, acts + [a]) == Some(Step(Run(procs, acts).value, a))
  {
    assert (acts + [a])[..|acts|] == acts;
  }

  /********** The waiting loop of one process **********/

  /** One turn of the loop: what the key held, and the time elapsed once the sleep is over. */
  datatype Turn = Turn(key: Key, elapsed: real)

  datatype WaitResult = Found(poly: Poly) | TimedOut | StillWaiting

  /** `_get_redis_poly`, and the truth test on its result. */
  predicate Answers(t: Turn) { t.key.Published? && Truthy(t.key.poly) }

  predicate TooLate(t: Turn, timeout: Option<real>) { timeout.Some? && t.elapsed >= timeout.value }

  /** Turn `i` is reached: no earlier turn returned or raised. */
  predicate Reached(turns: seq<Turn>, timeout: Option<real>, i: nat)
    requires i <= |turns|
  {
    forall j | 0 <= j < i :: !Answers(turns[j]) && !TooLate(turns[j], timeout)
  }

  /** The polling loop of `_get_cpu_poly`. A turn reads the key before it looks at the clock, so the
      timeout is raised only after a read that found nothing. */
  method WaitForPoly(turns: seq<Turn>, timeout: Option<real>) returns (r: WaitResult)
    ensures forall p :: r == Found(p) <==>
              exists i | 0 <= i < |turns| :: Reached(turns, timeout, i) && turns[i].key == Published(p) && p.slope != 0.0
    ensures r == TimedOut <==>
              exists i | 0 <= i < |turns| :: Reached(turns, timeout, i) && timeout.Some? && turns[i].elapsed >= timeout.value
                                             && !(turns[i].key.Published? && turns[i].key.poly.slope != 0.0)
    ensures r == StillWaiting <==> Reached(turns, timeout, |turns|)
  {
    var i := 0;
    while i < |turns|
      invariant 0 <= i <= |turns| && Reached(turns, timeout, i)
    {
      if Answers(turns[i]) {
        return Found(turns[i].key.poly);
      }
      if timeout.Some? && turns[i].elapsed >= timeout.value {
        return TimedOut;
      }
      i := i + 1;
    }
    return StillWaiting;
  }
}
