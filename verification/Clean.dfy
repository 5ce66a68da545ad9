/**
  The cleaner of `crates/spfs/src/clean.rs`: prune the tag histories, walk everything the kept
  tags reach, then sweep what was not reached and is old enough.

  The walk runs one visit per reference; the loop that drives it picks any pending visit, so it
  takes every interleaving of the concurrent walk.
 */
module Clean {
  import opened Graph
  import opened Prune

  /** What a clean may remove, and which objects and renders are too young to be removed. */
  datatype Store = Store(objects: Objects, payloads: set<Digest>, renders: set<Digest>)

  datatype Stream = Stream(config: Config, history: seq<Tag>)

  /**
    A call of `visit_attached_objects`, made on behalf of the walk of one tag stream. Two equal
    calls pending at once count as one: the later of the two does nothing.
   */
  datatype Visit = Visit(stream: nat, digest: Digest)

  function Visits(stream: nat, digests: seq<Digest>): (visits: set<Visit>)
    ensures forall v :: v in visits ==> v.stream == stream && v.digest in digests
    ensures forall d :: d in digests ==> Visit(stream, d) in visits
  {
    if digests == [] then {}
    else {Visit(stream, digests[0])} + Visits(stream, digests[1..])
  }

  predicate Named(visits: set<Visit>, d: Digest) {
    exists v :: v in visits && v.digest == d
  }

  function TargetList(history: seq<Tag>): (targets: seq<Digest>)
    ensures forall d :: d in targets <==> d in Targets(history)
  {
    var targets := seq(|history|, i requires 0 <= i < |history| => history[i].target);
    assert forall i :: 0 <= i < |history| ==> targets[i] in targets && history[i].target in Targets(history);
    targets
  }

  // ----- Collecting the results of the tag streams -----

  /** What finishes first is in flight. */
  ghost predicate Finishes(finishes: set<nat> -> nat) {
    forall s :: s != {} ==> finishes(s) in s
  }

  /** The futures that are left once no more than `limit` are, the first to finish going first. */
  function Throttled(futures: set<nat>, limit: nat, finishes: set<nat> -> nat): (left: set<nat>)
    requires Finishes(finishes)
    ensures left <= futures && (|futures| > limit ==> |left| == limit)
    decreases |futures|
  {
    if |futures| <= limit then futures
    else
      var r := finishes(futures);
      assert r in futures && |futures - {r}| == |futures| - 1;
      Throttled(futures - {r}, limit, finishes)
  }

  function UpTo(n: nat): set<nat> {
    if n == 0 then {} else UpTo(n - 1) + {n - 1}
  }

  lemma {:induction false} UpToMeans(n: nat)
    ensures |UpTo(n)| == n && forall j: nat :: j in UpTo(n) <==> j < n
  {
    if n > 0 {
      UpToMeans(n - 1);
    }
  }

  /** What is in flight when the next future is started. */
  function Left(futures: set<nat>, concurrency: nat, finishes: set<nat> -> nat): (left: set<nat>)
    requires Finishes(finishes)
    ensures left <= futures
  {
    if |futures| > concurrency then Throttled(futures, concurrency / 2, finishes) else futures
  }

  /** The streams whose results are collected in the end. */
  function Collected(n: nat, concurrency: nat, finishes: set<nat> -> nat): (collected: set<nat>)
    requires Finishes(finishes)
    ensures collected <= UpTo(n)
  {
    if n == 0 then {} else Left(Collected(n - 1, concurrency, finishes), concurrency, finishes) + {n - 1}
  }

  lemma CollectedNext(n: nat, concurrency: nat, finishes: set<nat> -> nat)
    requires Finishes(finishes)
    ensures var before := Collected(n, concurrency, finishes);
            before <= UpTo(n) && Collected(n + 1, concurrency, finishes) == Left(before, concurrency, finishes) + {n}
  {
    hide UpTo, Left, Finishes;
  }

  lemma NothingLeft(futures: set<nat>, concurrency: nat, finishes: set<nat> -> nat)
    requires Finishes(finishes) && |futures| <= concurrency
    ensures Left(futures, concurrency, finishes) == futures
  {
  }

  lemma UpToNext(n: nat)
    ensures UpTo(n + 1) == UpTo(n) + {n}
  {
  }

  lemma NoneCollected(concurrency: nat, finishes: set<nat> -> nat)
    requires Finishes(finishes)
    ensures Collected(0, concurrency, finishes) == UpTo(0)
  {
    hide Finishes, Left;
  }

  lemma NextIsCollected(n: nat, concurrency: nat, finishes: set<nat> -> nat)
    requires Finishes(finishes) && n <= concurrency && Collected(n, concurrency, finishes) == UpTo(n)
    ensures Collected(n + 1, concurrency, finishes) == UpTo(n + 1)
  {
    hide *;
    UpToMeans(n);
    UpToNext(n);
    CollectedNext(n, concurrency, finishes);
    NothingLeft(UpTo(n), concurrency, finishes);
  }

  lemma {:induction false} AllCollected(n: nat, concurrency: nat, finishes: set<nat> -> nat)
    requires Finishes(finishes) && n <= concurrency + 1
    ensures Collected(n, concurrency, finishes) == UpTo(n)
  {
    hide *;
    if n == 0 {
      NoneCollected(concurrency, finishes);
    } else {
      AllCollected(n - 1, concurrency, finishes);
      NextIsCollected(n - 1, concurrency, finishes);
    }
  }

  lemma LeftCount(futures: set<nat>, concurrency: nat, finishes: set<nat> -> nat)
    requires Finishes(finishes)
    ensures |Left(futures, concurrency, finishes)| == if |futures| > concurrency then concurrency / 2 else |futures|
  {
  }

  lemma OneMoreCollected(n: nat, concurrency: nat, finishes: set<nat> -> nat)
    requires Finishes(finishes)
    ensures var size := |Collected(n, concurrency, finishes)|;
            |Collected(n + 1, concurrency, finishes)| == (if size > concurrency then concurrency / 2 else size) + 1
  {
    var before := Collected(n, concurrency, finishes);
    CollectedNext(n, concurrency, finishes);
    LeftCount(before, concurrency, finishes);
    UpToMeans(n);
    hide Collected, Left, Finishes, UpTo;
    assert n !in Left(before, concurrency, finishes);
  }

  lemma OneMoreRound(rounds: nat, period: nat)
    ensures (rounds + 1) * period == rounds * period + period
  {
  }

  /**
    How many results are collected of more than `concurrency + 1` streams: before the next stream is
    started, all but half of `concurrency` are dropped; then as many more are started until the limit
    is exceeded again, `throttled` times before this one, and `since` streams have been started since.
   */
  lemma {:induction false} CollectedCount(n: nat, concurrency: nat, finishes: set<nat> -> nat)
    returns (throttled: nat, since: nat)
    requires Finishes(finishes) && n >= concurrency + 2
    ensures since < concurrency + 1 - concurrency / 2
    ensures n == concurrency + 2 + throttled * (concurrency + 1 - concurrency / 2) + since
    ensures |Collected(n, concurrency, finishes)| == concurrency / 2 + 1 + since
  {
    hide Collected, Finishes, UpTo;
    var period := concurrency + 1 - concurrency / 2;
    OneMoreCollected(n - 1, concurrency, finishes);
    if n == concurrency + 2 {
      AllCollected(n - 1, concurrency, finishes);
      UpToMeans(n - 1);
      throttled, since := 0, 0;
    } else {
      throttled, since := CollectedCount(n - 1, concurrency, finishes);
      if since == period - 1 {
        OneMoreRound(throttled, period);
        throttled, since := throttled + 1, 0;
      } else {
        since := since + 1;
      }
    }
  }

  /** A stream whose result is dropped. */
  lemma {:induction false} SomeDropped(n: nat, concurrency: nat, finishes: set<nat> -> nat) returns (x: nat)
    requires Finishes(finishes) && n > concurrency + 1
    ensures x < n && x !in Collected(n, concurrency, finishes)
  {
    hide Throttled, Left, Collected, UpTo, Finishes;
    CollectedNext(n - 1, concurrency, finishes);
    if n - 1 > concurrency + 1 {
      x := SomeDropped(n - 1, concurrency, finishes);
    } else {
      AllCollected(n - 1, concurrency, finishes);
      UpToMeans(n - 1);
      x := NotLeft(UpTo(n - 1), concurrency, finishes);
    }
  }

  lemma NotLeft(futures: set<nat>, concurrency: nat, finishes: set<nat> -> nat) returns (x: nat)
    requires Finishes(finishes) && |futures| > concurrency
    ensures x == finishes(futures) && x in futures && x !in Left(futures, concurrency, finishes)
  {
    x := finishes(futures);
    assert Throttled(futures - {x}, concurrency / 2, finishes) <= futures - {x};
  }

  /** Wait until at most `limit` of the futures are left; the results of the others are gone. */
  method Throttle(limit: nat, futures: set<nat>, finishes: set<nat> -> nat) returns (left: set<nat>, dropped: set<nat>)
    requires Finishes(finishes)
    ensures left == Throttled(futures, limit, finishes) && dropped == futures - left
  {
    left, dropped := futures, {};
    while |left| > limit
      invariant left <= futures && dropped == futures - left
      invariant Throttled(left, limit, finishes) == Throttled(futures, limit, finishes)
    {
      var r := finishes(left);
      left, dropped := left - {r}, dropped + {r};
    }
  }

  /**
    The loop that starts one future per stream and throttles: whenever more than `concurrency`
    futures are in flight it waits for some of them and drops what they return. Every result is
    collected or dropped, and none is dropped exactly when there are at most `concurrency + 1`
    streams, whatever the order in which they finish.
   */
  method CollectResults(n: nat, concurrency: nat, finishes: set<nat> -> nat)
    returns (collected: set<nat>, dropped: set<nat>)
    requires Finishes(finishes)
    ensures collected == Collected(n, concurrency, finishes) && dropped == UpTo(n) - collected
    ensures dropped == {} <==> n <= concurrency + 1
  {
    collected, dropped := {}, {};
    for i := 0 to n
      invariant collected == Collected(i, concurrency, finishes)
      invariant dropped == UpTo(i) - collected
    {
      var left, gone := StartNext(collected, concurrency, finishes);
      UpToMeans(i);
      CollectedNext(i, concurrency, finishes);
      OneMore(UpTo(i), i, collected, left, gone, dropped);
      hide Throttled, Left, Finishes, Collected;
      collected, dropped := left + {i}, dropped + gone;
    }
    if n <= concurrency + 1 {
      AllCollected(n, concurrency, finishes);
    } else {
      var x := SomeDropped(n, concurrency, finishes);
      UpToMeans(n);
    }
  }

  method StartNext(futures: set<nat>, concurrency: nat, finishes: set<nat> -> nat)
    returns (left: set<nat>, gone: set<nat>)
    requires Finishes(finishes)
    ensures left == Left(futures, concurrency, finishes) && gone == futures - left
  {
    left, gone := futures, {};
    if |futures| > concurrency {
      left, gone := Throttle(concurrency / 2, futures, finishes);
    }
  }

  lemma OneMore(all: set<nat>, i: nat, collected: set<nat>, left: set<nat>, gone: set<nat>, dropped: set<nat>)
    requires i !in all && collected <= all && left <= collected && gone == collected - left
             && dropped == all - collected
    ensures dropped + gone == all + {i} - (left + {i})
  {
  }

  // ----- The walk of the attached objects -----

  /** The visits that have been made but not entered, and those that wait for their object. */
  datatype WalkState = WalkState(attached: set<Digest>, calls: set<Visit>, reading: set<Visit>)

  /** A visit enters: its digest is attached, and read if it was not attached before. */
  function Enter(w: WalkState, v: Visit): WalkState {
    if v.digest in w.attached then w.(calls := w.calls - {v})
    else WalkState(w.attached + {v.digest}, w.calls - {v}, w.reading + {v})
  }

  /** A visit has read its object: the children are visited next. An unknown object has none. */
  function Load(objects: Objects, w: WalkState, v: Visit): WalkState {
    var children := if v.digest in objects then ChildObjects(objects[v.digest]) else [];
    WalkState(w.attached, w.calls + Visits(v.stream, children), w.reading - {v})
  }

  function Fail(w: WalkState, v: Visit): WalkState {
    w.(reading := w.reading - {v})
  }

  /** Every child of the object is attached or about to be visited. */
  predicate ChildrenNamed(objects: Objects, w: WalkState, d: Digest) {
    d in objects ==> forall c :: c in ChildObjects(objects[d]) ==> c in w.attached || Named(w.calls, c)
  }

  /** Only reachable digests are attached or visited, on behalf of one of the `n` streams. */
  ghost predicate WalkSound(objects: Objects, roots: set<Digest>, n: nat, w: WalkState) {
    && (forall d :: d in w.attached ==> Reachable(objects, roots, d))
    && (forall v :: v in w.calls ==> v.stream < n && Reachable(objects, roots, v.digest))
    && (forall v :: v in w.reading ==> v.stream < n && v.digest in w.attached)
  }

  /** What is not attached yet is still named by a pending visit. */
  predicate WalkComplete(objects: Objects, roots: set<Digest>, w: WalkState) {
    && (forall d :: d in roots ==> d in w.attached || Named(w.calls, d))
    && (forall d :: d in w.attached ==> Named(w.reading, d) || ChildrenNamed(objects, w, d))
  }

  lemma EnterKeepsComplete(objects: Objects, roots: set<Digest>, w: WalkState, v: Visit)
    requires WalkComplete(objects, roots, w) && v in w.calls
    ensures WalkComplete(objects, roots, Enter(w, v))
  {
  }

  lemma LoadKeepsComplete(objects: Objects, roots: set<Digest>, w: WalkState, v: Visit)
    requires WalkComplete(objects, roots, w) && v in w.reading
    ensures WalkComplete(objects, roots, Load(objects, w, v))
  {
  }

  /** What every moment of the walk keeps; after a failed read only its soundness is left. */
  ghost predicate WalkInv(objects: Objects, roots: set<Digest>, n: nat, w: WalkState, failed: bool) {
    WalkSound(objects, roots, n, w) && (!failed ==> WalkComplete(objects, roots, w))
  }

  /** The steps still possible: unattached digests, then reads, then visits. */
  function Unattached(objects: Objects, roots: set<Digest>, w: WalkState): nat {
    |Mentioned(objects, roots) - w.attached|
  }

  function Reads(w: WalkState): nat { |w.reading| }

  function Pending(w: WalkState): nat { |w.calls| }

  predicate Fewer(objects: Objects, roots: set<Digest>, w': WalkState, w: WalkState) {
    var left', left := Unattached(objects, roots, w'), Unattached(objects, roots, w);
    left' < left || (left' == left && (Reads(w') < Reads(w) || (Reads(w') == Reads(w) && Pending(w') < Pending(w))))
  }

  lemma OneFewer(all: set<Digest>, attached: set<Digest>, d: Digest)
    requires d in all && d !in attached
    ensures |all - (attached + {d})| < |all - attached|
  {
    assert all - (attached + {d}) == (all - attached) - {d};
  }

  lemma EnterFewer(objects: Objects, roots: set<Digest>, w: WalkState, v: Visit)
    requires v in w.calls && v.digest in Mentioned(objects, roots)
    ensures Fewer(objects, roots, Enter(w, v), w)
  {
    hide Mentioned;
    if v.digest !in w.attached {
      OneFewer(Mentioned(objects, roots), w.attached, v.digest);
    }
  }

  lemma EnterKeepsSound(objects: Objects, roots: set<Digest>, n: nat, w: WalkState, v: Visit)
    requires WalkSound(objects, roots, n, w) && v in w.calls
    ensures WalkSound(objects, roots, n, Enter(w, v)) && Reachable(objects, roots, v.digest)
  {
    hide Reachable;
  }

  lemma EnterKeeps(objects: Objects, roots: set<Digest>, n: nat, w: WalkState, failed: bool, v: Visit)
    requires WalkInv(objects, roots, n, w, failed) && v in w.calls
    ensures WalkInv(objects, roots, n, Enter(w, v), failed)
    ensures Fewer(objects, roots, Enter(w, v), w)
  {
    hide WalkSound, WalkComplete, Reachable, Mentioned, Fewer, Enter;
    EnterKeepsSound(objects, roots, n, w, v);
    if !failed {
      EnterKeepsComplete(objects, roots, w, v);
    }
    ReachableIsMentioned(objects, roots, v.digest);
    EnterFewer(objects, roots, w, v);
  }

  lemma LoadKeeps(objects: Objects, roots: set<Digest>, n: nat, w: WalkState, failed: bool, v: Visit)
    requires WalkInv(objects, roots, n, w, failed) && v in w.reading
    ensures v.stream < n && WalkInv(objects, roots, n, Load(objects, w, v), failed)
    ensures WalkInv(objects, roots, n, Fail(w, v), true)
    ensures Fewer(objects, roots, Load(objects, w, v), w)
    ensures Fewer(objects, roots, Fail(w, v), w)
  {
    var children := if v.digest in objects then ChildObjects(objects[v.digest]) else [];
    forall c | c in children
      ensures Reachable(objects, roots, c)
    {
      ReachableStep(objects, roots, v.digest, c);
    }
    if !failed {
      LoadKeepsComplete(objects, roots, w, v);
    }
  }

  /** The first visits are for the roots, on behalf of one of the `n` streams. */
  predicate FirstFor(roots: set<Digest>, n: nat, first: set<Visit>) {
    (forall v :: v in first ==> v.stream < n && v.digest in roots) && (forall d :: d in roots ==> Named(first, d))
  }

  lemma StartOfWalk(objects: Objects, roots: set<Digest>, n: nat, first: set<Visit>)
    requires FirstFor(roots, n, first)
    ensures WalkInv(objects, roots, n, WalkState({}, first, {}), false)
  {
    forall d | d in roots
      ensures Reachable(objects, roots, d)
    {
      RootReachable(objects, roots, d);
    }
  }

  lemma EndOfWalk(objects: Objects, roots: set<Digest>, n: nat, w: WalkState, failed: bool)
    requires WalkInv(objects, roots, n, w, failed) && w.calls == {} && w.reading == {}
    ensures forall d :: d in w.attached ==> Reachable(objects, roots, d)
    ensures !failed ==> forall d :: Reachable(objects, roots, d) ==> d in w.attached
  {
    if !failed {
      assert Covers(objects, roots, w.attached) by {
        forall p, c | p in w.attached && Edge(objects, p, c)
          ensures c in w.attached
        {
          assert ChildrenNamed(objects, w, p);
        }
      }
      forall d | Reachable(objects, roots, d)
        ensures d in w.attached
      {
        CoverHoldsReachable(objects, roots, w.attached, d);
      }
    }
  }

  /** All digests that a walk can meet; there are finitely many, so every walk ends. */
  function Mentioned(objects: Objects, roots: set<Digest>): set<Digest> {
    roots + set d, c | d in objects && c in ChildObjects(objects[d]) :: c
  }

  lemma ReachableIsMentioned(objects: Objects, roots: set<Digest>, d: Digest)
    requires Reachable(objects, roots, d)
    ensures d in Mentioned(objects, roots)
  {
  }

  datatype Removal = OfObject(digest: Digest) | OfPayload(digest: Digest) | OfRender(digest: Digest)

  /**
    What a clean does not decide itself: which pending visit moves next, whether one that has been
    called again enters first, what can be read, in which order the streams finish, and which
    removals work.
   */
  datatype World = World(
    next: WalkState -> Visit,
    enters: WalkState -> bool,
    readable: Visit -> bool,
    finishes: set<nat> -> nat,
    removes: Removal -> bool
  ) {
    ghost predicate Valid() {
      && (forall w: WalkState :: w.calls != {} || w.reading != {} ==> next(w) in w.calls || next(w) in w.reading)
      && Finishes(finishes)
    }
  }

  lemma VisitKeeps(objects: Objects, roots: set<Digest>, n: nat, w: WalkState, failed: bool, v: Visit)
    requires WalkInv(objects, roots, n, w, failed) && (v in w.calls || v in w.reading)
    ensures v in w.calls ==> WalkInv(objects, roots, n, Enter(w, v), failed) && Fewer(objects, roots, Enter(w, v), w)
    ensures v in w.reading ==>
              && v.stream < n && WalkInv(objects, roots, n, Load(objects, w, v), failed)
              && WalkInv(objects, roots, n, Fail(w, v), true)
              && Fewer(objects, roots, Load(objects, w, v), w) && Fewer(objects, roots, Fail(w, v), w)
  {
    hide *;
    if v in w.calls {
      EnterKeeps(objects, roots, n, w, failed, v);
    }
    if v in w.reading {
      LoadKeeps(objects, roots, n, w, failed, v);
    }
  }

  function Zeros(n: nat): (z: seq<nat>)
    ensures |z| == n && forall i :: 0 <= i < n ==> z[i] == 0
  {
    seq(n, _ => 0)
  }

  /** The walk as the world has it: what is attached, and how many errors each stream has recorded. */
  ghost function Walked(objects: Objects, roots: set<Digest>, n: nat, w: WalkState, errors: seq<nat>, world: World)
    : (set<Digest>, seq<nat>)
    requires WalkInv(objects, roots, n, w, true) && |errors| == n && world.Valid()
    decreases Unattached(objects, roots, w), Reads(w), Pending(w)
  {
    if w.calls == {} && w.reading == {} then (w.attached, errors)
    else
      var v := world.next(w);
      VisitKeeps(objects, roots, n, w, true, v);
      if v in w.calls && (world.enters(w) || v !in w.reading) then Walked(objects, roots, n, Enter(w, v), errors, world)
      else if world.readable(v) then Walked(objects, roots, n, Load(objects, w, v), errors, world)
      else Walked(objects, roots, n, Fail(w, v), errors[v.stream := errors[v.stream] + 1], world)
  }

  lemma SoundIsEnough(objects: Objects, roots: set<Digest>, n: nat, w: WalkState, failed: bool)
    requires WalkInv(objects, roots, n, w, failed)
    ensures WalkInv(objects, roots, n, w, true)
  {
  }

  /** Only what is reachable is attached, and all of it unless an error was recorded. */
  ghost predicate Exact(objects: Objects, roots: set<Digest>, outcome: (set<Digest>, seq<nat>)) {
    && (forall d :: d in outcome.0 ==> Reachable(objects, roots, d))
    && ((forall i :: 0 <= i < |outcome.1| ==> outcome.1[i] == 0) ==>
          forall d :: Reachable(objects, roots, d) ==> d in outcome.0)
  }

  predicate SomeError(errors: seq<nat>) {
    exists i :: 0 <= i < |errors| && errors[i] > 0
  }

  lemma {:induction false} WalkedIsExact(objects: Objects, roots: set<Digest>, n: nat, w: WalkState, errors: seq<nat>,
                                         world: World, failed: bool)
    requires WalkInv(objects, roots, n, w, failed) && WalkInv(objects, roots, n, w, true) && |errors| == n
             && world.Valid()
    requires failed ==> SomeError(errors)
    ensures Exact(objects, roots, Walked(objects, roots, n, w, errors, world))
    ensures |Walked(objects, roots, n, w, errors, world).1| == n
    decreases Unattached(objects, roots, w), Reads(w), Pending(w)
  {
    hide WalkInv, Reachable, Unattached, Reads, Pending, Load, Enter, Fail;
    if w.calls == {} && w.reading == {} {
      EndOfWalk(objects, roots, n, w, failed);
    } else {
      hide Exact;
      var v := world.next(w);
      VisitKeeps(objects, roots, n, w, failed, v);
      VisitKeeps(objects, roots, n, w, true, v);
      if v in w.calls && (world.enters(w) || v !in w.reading) {
        WalkedIsExact(objects, roots, n, Enter(w, v), errors, world, failed);
      } else if world.readable(v) {
        WalkedIsExact(objects, roots, n, Load(objects, w, v), errors, world, failed);
      } else {
        var more := errors[v.stream := errors[v.stream] + 1];
        assert more[v.stream] > 0;
        WalkedIsExact(objects, roots, n, Fail(w, v), more, world, true);
      }
    }
  }

  /**
    Walk from the kept targets, any pending visit next. Reading an object may fail, which the
    walk of its stream records. Everything attached is reachable; without a recorded error
    everything reachable is attached.
   */
  method WalkStreams(objects: Objects, ghost roots: set<Digest>, n: nat, first: set<Visit>, world: World)
    returns (attached: set<Digest>, errors: seq<nat>)
    requires FirstFor(roots, n, first) && world.Valid()
    ensures |errors| == n
    ensures forall d :: d in attached ==> Reachable(objects, roots, d)
    ensures (forall i :: 0 <= i < n ==> errors[i] == 0) ==> forall d :: Reachable(objects, roots, d) ==> d in attached
    ensures WalkInv(objects, roots, n, WalkState({}, first, {}), true)
    ensures (attached, errors) == Walked(objects, roots, n, WalkState({}, first, {}), Zeros(n), world)
  {
    hide FirstFor, WalkInv, Reachable, Unattached, Reads, Pending, Load, Enter, Fail;
    errors := Zeros(n);
    var w := WalkState({}, first, {});
    StartOfWalk(objects, roots, n, first);
    SoundIsEnough(objects, roots, n, w, false);
    WalkedIsExact(objects, roots, n, w, errors, world, false);
    ghost var outcome := Walked(objects, roots, n, w, errors, world);
    while w.calls != {} || w.reading != {}
      invariant |errors| == n && WalkInv(objects, roots, n, w, true)
      invariant Walked(objects, roots, n, w, errors, world) == outcome
      decreases Unattached(objects, roots, w), Reads(w), Pending(w)
    {
      var v := world.next(w);
      VisitKeeps(objects, roots, n, w, true, v);
      if v in w.calls && (world.enters(w) || v !in w.reading) {
        w := Enter(w, v);
      } else if world.readable(v) {
        w := Load(objects, w, v);
      } else {
        w := Fail(w, v);
        errors := errors[v.stream := errors[v.stream] + 1];
      }
    }
    attached := w.attached;
  }

  // ----- What the sweep does, as functions of the state it starts from -----

  /** The objects that neither a tag nor their age protects. */
  function Unprotected(store: Store, attached: set<Digest>, young: set<Digest>): set<Digest> {
    set d | d in store.objects && d !in attached && d !in young
  }

  function BlobsAmong(objects: Objects, digests: set<Digest>): set<Digest> {
    set d | d in digests && d in objects && objects[d].Blob? :: objects[d].payload
  }

  /** Attached after the object pass: the objects that are too young to remove join. */
  function AttachedWithYoung(store: Store, attached: set<Digest>, young: set<Digest>): set<Digest> {
    attached + set d | d in store.objects && d !in attached && d in young
  }

  function StoreAfterObjects(store: Store, attached: set<Digest>, young: set<Digest>): Store {
    var gone := Unprotected(store, attached, young);
    Store(store.objects - gone, store.payloads - BlobsAmong(store.objects, gone), store.renders)
  }

  /** The payloads that a real run and a dry run report as removed. */
  function PayloadReport(store: Store, attached: set<Digest>, young: set<Digest>): set<Digest> {
    BlobsAmong(store.objects, Unprotected(store, attached, young)) +
    (StoreAfterObjects(store, attached, young).payloads - AttachedWithYoung(store, attached, young))
  }

  function DryPayloadReport(store: Store, attached: set<Digest>): set<Digest> {
    BlobsAmong(store.objects, store.objects.Keys - attached) + (store.payloads - attached)
  }

  function RenderReport(store: Store, attached: set<Digest>, youngRenders: set<Digest>): set<Digest> {
    store.renders - attached - youngRenders
  }

  /**
    A dry run reports every payload and every render that a real run on the same state removes,
    although the real run attaches the young objects between its two passes.
   */
  lemma DryRunReportsAllRemovals(store: Store, attached: set<Digest>, young: set<Digest>, youngRenders: set<Digest>)
    ensures PayloadReport(store, attached, young) <= DryPayloadReport(store, attached)
    ensures RenderReport(store, AttachedWithYoung(store, attached, young), youngRenders)
         <= RenderReport(store, attached, {})
  {
  }

  /** Nothing of the given digests is missing from what is left of a store. */
  ghost predicate Spares(before: Store, after: Store, digests: set<Digest>) {
    && (forall d :: d in digests && d in before.objects ==> d in after.objects && after.objects[d] == before.objects[d])
    && (forall d :: d in digests && d in before.payloads ==> d in after.payloads)
    && (forall d :: d in digests && d in before.renders ==> d in after.renders)
  }

  /** Every blob is stored under the digest of its payload. */
  ghost predicate BlobsAddressed(objects: Objects) {
    forall d :: d in objects && objects[d].Blob? ==> objects[d].payload == d
  }

  /** No result that was collected has an error in it. */
  predicate NoneRecorded(errors: seq<nat>, collected: set<nat>) {
    forall i :: i in collected && i < |errors| ==> errors[i] == 0
  }

  lemma AllRecorded(errors: seq<nat>, concurrency: nat, finishes: set<nat> -> nat)
    requires Finishes(finishes) && |errors| <= concurrency + 1
    ensures NoneRecorded(errors, Collected(|errors|, concurrency, finishes))
            <==> forall i :: 0 <= i < |errors| ==> errors[i] == 0
  {
    AllCollected(|errors|, concurrency, finishes);
    UpToMeans(|errors|);
  }

  /** The walk starts from the targets of the entries that pruning keeps. */
  lemma RootsOfMeans(streams: seq<Stream>, d: Digest)
    ensures d in RootsOf(streams) <==>
              exists i :: 0 <= i < |streams| && exists tag ::
                tag in Kept(streams[i].config, streams[i].history, |streams[i].history|) && tag.target == d
  {
    hide Kept;
    if i :| 0 <= i < |streams| && d in Targets(KeptOf(streams[i])) {
      var k :| 0 <= k < |KeptOf(streams[i])| && KeptOf(streams[i])[k].target == d;
      assert KeptOf(streams[i])[k] in KeptOf(streams[i]);
    }
  }

  ghost function RootsOf(streams: seq<Stream>): set<Digest> {
    set i, d | 0 <= i < |streams| && d in Targets(KeptOf(streams[i])) :: d
  }

  function FirstVisitsOf(streams: seq<Stream>): set<Visit> {
    set i, d | 0 <= i < |streams| && d in Targets(KeptOf(streams[i])) :: Visit(i, d)
  }

  lemma NextVisits(streams: seq<Stream>, i: nat, more: set<Visit>)
    requires i < |streams| && forall v :: v in more <==> v.stream == i && v.digest in Targets(KeptOf(streams[i]))
    ensures FirstVisitsOf(streams[..i + 1]) == FirstVisitsOf(streams[..i]) + more
  {
    forall v
      ensures v in FirstVisitsOf(streams[..i + 1]) <==> v in FirstVisitsOf(streams[..i]) + more
    {
      if v.stream < i + 1 {
        assert streams[..i + 1][v.stream] == streams[v.stream];
      }
      if v.stream < i {
        assert streams[..i][v.stream] == streams[v.stream];
      }
    }
  }

  lemma FirstVisitsFor(streams: seq<Stream>)
    ensures FirstFor(RootsOf(streams), |streams|, FirstVisitsOf(streams))
  {
    forall d | d in RootsOf(streams)
      ensures Named(FirstVisitsOf(streams), d)
    {
      var i :| 0 <= i < |streams| && d in Targets(KeptOf(streams[i]));
      assert Visit(i, d) in FirstVisitsOf(streams);
    }
  }

  /** What the walk of a clean marks, and how many errors it records for each stream. */
  ghost function Marking(objects: Objects, streams: seq<Stream>, world: World): (outcome: (set<Digest>, seq<nat>))
    requires world.Valid()
    ensures |outcome.1| == |streams| && Exact(objects, RootsOf(streams), outcome)
  {
    var first := WalkState({}, FirstVisitsOf(streams), {});
    MarkingStarts(objects, streams);
    WalkedIsExact(objects, RootsOf(streams), |streams|, first, Zeros(|streams|), world, false);
    Walked(objects, RootsOf(streams), |streams|, first, Zeros(|streams|), world)
  }

  lemma MarkingStarts(objects: Objects, streams: seq<Stream>)
    ensures WalkInv(objects, RootsOf(streams), |streams|, WalkState({}, FirstVisitsOf(streams), {}), false)
    ensures WalkInv(objects, RootsOf(streams), |streams|, WalkState({}, FirstVisitsOf(streams), {}), true)
  {
    hide RootsOf, FirstVisitsOf, WalkInv, FirstFor;
    FirstVisitsFor(streams);
    StartOfWalk(objects, RootsOf(streams), |streams|, FirstVisitsOf(streams));
    SoundIsEnough(objects, RootsOf(streams), |streams|, WalkState({}, FirstVisitsOf(streams), {}), false);
  }

  /** Only what pruning keeps matters to the walk. */
  lemma SameMarking(objects: Objects, a: seq<Stream>, b: seq<Stream>, world: World)
    requires world.Valid() && |a| == |b| && RootsOf(a) == RootsOf(b) && FirstVisitsOf(a) == FirstVisitsOf(b)
    ensures Marking(objects, a, world) == Marking(objects, b, world)
  {
    hide RootsOf, FirstVisitsOf, WalkInv, Exact;
    MarkingStarts(objects, a);
    MarkingStarts(objects, b);
  }

  /** Whether a clean goes on to its sweep: none of the results that it has collected has an error in it. */
  ghost predicate Sweeps(objects: Objects, streams: seq<Stream>, concurrency: nat, world: World)
    requires world.Valid()
  {
    NoneRecorded(Marking(objects, streams, world).1, Collected(|streams|, concurrency, world.finishes))
  }

  class Cleaner {
    const concurrency: nat
    const dryRun: bool
    const young: set<Digest>         // objects newer than the cutoff
    const youngRenders: set<Digest>  // renders newer than the cutoff
    const world: World
    var store: Store
    var streams: seq<Stream>
    var attached: set<Digest>

    constructor (store: Store, streams: seq<Stream>, concurrency: nat, dryRun: bool,
                 young: set<Digest>, youngRenders: set<Digest>, world: World)
      ensures this.store == store && this.streams == streams && attached == {} && this.world == world
      ensures this.concurrency == concurrency && this.dryRun == dryRun
      ensures this.young == young && this.youngRenders == youngRenders
    {
      this.store, this.streams, this.attached, this.world := store, streams, {}, world;
      this.concurrency, this.dryRun, this.young, this.youngRenders := concurrency, dryRun, young, youngRenders;
    }

    /** The targets of the entries that pruning keeps, over all streams. */
    ghost function Roots(): set<Digest>
      reads this
    {
      RootsOf(streams)
    }

    /** The first visits of every stream: its kept targets. */
    method FirstVisits() returns (visits: set<Visit>)
      ensures visits == FirstVisitsOf(streams)
    {
      visits := {};
      for i := 0 to |streams|
        invariant visits == FirstVisitsOf(streams[..i])
      {
        var targets := TargetList(KeptOf(streams[i]));
        NextVisits(streams, i, Visits(i, targets));
        visits := visits + Visits(i, targets);
      }
      assert streams[..|streams|] == streams;
    }

    /** The walk of all streams together; see `WalkStreams`. */
    method WalkAttached() returns (errors: seq<nat>)
      requires attached == {} && world.Valid()
      modifies this`attached
      ensures (attached, errors) == Marking(store.objects, streams, world)
      ensures |errors| == |streams| && Exact(store.objects, Roots(), (attached, errors))
    {
      var calls := FirstVisits();
      FirstVisitsFor(streams);
      hide FirstFor, WalkInv, Exact;
      attached, errors := WalkStreams(store.objects, Roots(), |streams|, calls, world);
    }

    /** Prune each history; a dry run leaves it as it is. What pruning keeps stays the same. */
    method PruneStreams()
      requires forall i :: 0 <= i < |streams| ==> streams[i].config.Valid()
      modifies this`streams
      ensures |streams| == |old(streams)|
      ensures forall i :: 0 <= i < |streams| ==>
                streams[i] == if dryRun then old(streams)[i] else old(streams)[i].(history := KeptOf(old(streams)[i]))
      ensures Roots() == old(Roots()) && FirstVisitsOf(streams) == FirstVisitsOf(old(streams))
    {
      var i := 0;
      while i < |streams|
        invariant i <= |streams| == |old(streams)|
        invariant forall j :: 0 <= j < i ==>
                    streams[j] == if dryRun then old(streams)[j]
                      else old(streams)[j].(history := KeptOf(old(streams)[j]))
        invariant forall j :: i <= j < |streams| ==> streams[j] == old(streams)[j]
        invariant forall j :: 0 <= j < |streams| ==> KeptOf(streams[j]) == KeptOf(old(streams)[j])
      {
        var toPrune, toKeep, gone, left := PruneTagStream(streams[i].config, streams[i].history);
        PruningIsIdempotent(streams[i].config, streams[i].history);
        if !dryRun {
          streams := streams[i := streams[i].(history := toKeep)];
        }
        i := i + 1;
      }
    }

    /**
      Remove every object that is neither attached nor young, and the payload of each removed
      blob; attach the young ones. A removal may fail, which stops the pass.
     */
    method SweepObjects() returns (ok: bool, report: set<Digest>)
      requires BlobsAddressed(store.objects)
      modifies this`store, this`attached
      ensures Spares(old(store), store, old(attached)) && old(attached) <= attached
      ensures dryRun ==> store == old(store) && attached == old(attached)
      ensures ok && dryRun ==> report == BlobsAmong(store.objects, store.objects.Keys - attached)
      ensures ok && !dryRun ==>
                && store == StoreAfterObjects(old(store), old(attached), young)
                && attached == AttachedWithYoung(old(store), old(attached), young)
                && report == BlobsAmong(old(store).objects, Unprotected(old(store), old(attached), young))
      ensures (forall r :: world.removes(r)) ==> ok
      ensures !dryRun ==> forall d :: d in old(store.objects) && (d in old(attached) || d in young) ==>
                d in store.objects && store.objects[d] == old(store.objects)[d]
      ensures !dryRun ==>
                forall d :: d in old(store.payloads) && (d in old(attached) || d in young) ==> d in store.payloads
      ensures ok && !dryRun ==> forall d :: d in store.objects <==>
                d in old(store.objects) && (d in old(attached) || d in young)
      ensures ok && !dryRun ==> forall d :: d in attached <==>
                d in old(attached) || (d in old(store.objects) && d in young)
      ensures store.renders == old(store.renders)
    {
      var start, marked := store, attached;
      var unprotected := if dryRun then start.objects.Keys - marked else Unprotected(start, marked, young);
      report := {};
      var todo := start.objects.Keys;
      while todo != {}
        invariant todo <= start.objects.Keys
        invariant report == BlobsAmong(start.objects, unprotected - todo)
        invariant attached == if dryRun then marked else marked + (AttachedWithYoung(start, marked, young) - todo)
        invariant store.renders == start.renders
        invariant store.objects == if dryRun then start.objects else start.objects - (unprotected - todo)
        invariant store.payloads == if dryRun then start.payloads else start.payloads - report
      {
        var d :| d in todo;
        todo := todo - {d};
        if d in marked {
          assert unprotected - todo == unprotected - (todo + {d});
        } else if !dryRun && !world.removes(OfObject(d)) {
          return false, {};
        } else if !dryRun && d in young {
          attached := attached + {d};
          assert unprotected - todo == unprotected - (todo + {d});
        } else {
          assert unprotected - todo == (unprotected - (todo + {d})) + {d};
          if !dryRun {
            store := store.(objects := store.objects - {d});
          }
          if start.objects[d].Blob? {
            if !dryRun && !world.removes(OfPayload(start.objects[d].payload)) {
              return false, {};
            }
            report := report + {start.objects[d].payload};
            if !dryRun {
              store := store.(payloads := store.payloads - {start.objects[d].payload});
            }
          }
        }
      }
      assert unprotected - {} == unprotected;
      ok := true;
    }

    /** Remove every payload that is not attached. */
    method SweepPayloads() returns (ok: bool, report: set<Digest>)
      modifies this`store
      ensures Spares(old(store), store, attached)
      ensures dryRun ==> store == old(store)
      ensures ok ==> report == old(store).payloads - attached
      ensures ok && !dryRun ==> store == old(store).(payloads := old(store).payloads - report)
      ensures forall p :: p in store.payloads ==> p in old(store.payloads)
      ensures store.objects == old(store.objects) && store.renders == old(store.renders)
      ensures (forall r :: world.removes(r)) ==> ok
    {
      var start := store;
      report := {};
      var todo := start.payloads;
      while todo != {}
        invariant todo <= start.payloads
        invariant report == start.payloads - todo - attached
        invariant store == if dryRun then start else start.(payloads := start.payloads - report)
      {
        var p :| p in todo;
        todo := todo - {p};
        if p !in attached {
          if !dryRun && !world.removes(OfPayload(p)) {
            return false, {};
          }
          report := report + {p};
          if !dryRun {
            store := store.(payloads := store.payloads - {p});
          }
        }
      }
      ok := true;
    }

    /** Remove every render that is neither attached nor young; a dry run reports the young ones too. */
    method SweepRenders() returns (ok: bool, report: set<Digest>)
      modifies this`store
      ensures Spares(old(store), store, attached)
      ensures dryRun ==> store == old(store)
      ensures ok ==> report == RenderReport(old(store), attached, if dryRun then {} else youngRenders)
      ensures ok && !dryRun ==> store == old(store).(renders := old(store).renders - report)
      ensures forall r :: r in old(store.renders) && (r in attached || r in youngRenders) ==> r in store.renders
      ensures ok && dryRun ==> forall r :: r in report <==> r in old(store.renders) && r !in attached
      ensures ok && !dryRun ==> forall r :: r in store.renders <==>
                r in old(store.renders) && (r in attached || r in youngRenders)
      ensures store.objects == old(store.objects) && store.payloads == old(store.payloads)
      ensures (forall r :: world.removes(r)) ==> ok
    {
      var start := store;
      report := {};
      var todo := start.renders;
      while todo != {}
        invariant todo <= start.renders
        invariant report == RenderReport(start, attached, if dryRun then {} else youngRenders) - todo
        invariant store == if dryRun then start else start.(renders := start.renders - report)
      {
        var r :| r in todo;
        todo := todo - {r};
        if r !in attached {
          if !dryRun && !world.removes(OfRender(r)) {
            return false, {};
          }
          if dryRun || r !in youngRenders {
            report := report + {r};
          }
          if !dryRun && r !in youngRenders {
            store := store.(renders := store.renders - {r});
          }
        }
      }
      ok := true;
    }

    /**
      A whole clean. `swept` says whether the sweep was reached. With at most `concurrency + 1`
      streams it is reached only if every read succeeded; the walk has then marked exactly what
      the kept tags reach, and nothing of it is removed, whether or not the sweep completes.
     */
    method PruneAllTagsAndClean()
      returns (swept: bool, ok: bool, errors: seq<nat>, payloads: set<Digest>, renders: set<Digest>,
               ghost marked: set<Digest>)
      requires attached == {} && BlobsAddressed(store.objects) && world.Valid()
      requires forall i :: 0 <= i < |streams| ==> streams[i].config.Valid()
      modifies this
      ensures (marked, errors) == Marking(old(store.objects), old(streams), world)
      ensures swept <==> Sweeps(old(store.objects), old(streams), concurrency, world)
      ensures swept && (forall r :: world.removes(r)) ==> ok
      ensures dryRun ==> store == old(store) && streams == old(streams)
      ensures !swept ==> store == old(store)
      ensures forall d :: d in marked ==> Reachable(old(store.objects), old(Roots()), d)
      ensures !dryRun ==> |streams| == |old(streams)| && forall i :: 0 <= i < |streams| ==>
                && streams[i].config == old(streams)[i].config
                && streams[i].history ==
                   Kept(old(streams)[i].config, old(streams)[i].history, |old(streams)[i].history|)
      ensures |old(streams)| <= concurrency + 1 && swept ==>
                && (forall i :: 0 <= i < |errors| ==> errors[i] == 0)
                && (forall d :: d in marked <==> Reachable(old(store.objects), old(Roots()), d))
                && Spares(old(store), store, marked)
      ensures swept && ok && dryRun ==>
                payloads == DryPayloadReport(old(store), marked) && renders == RenderReport(old(store), marked, {})
      ensures swept && ok && !dryRun ==>
                && payloads == PayloadReport(old(store), marked, young)
                && renders == RenderReport(old(store), AttachedWithYoung(old(store), marked, young), youngRenders)
                && store.objects.Keys == old(store.objects.Keys) - Unprotected(old(store), marked, young)
                && store.payloads == old(store.payloads) - payloads
                && store.renders == old(store.renders) - renders
      // whatever is marked or young stays, whether or not the sweep completes
      ensures forall d :: d in old(store.objects) && (d in marked || d in young) ==>
                d in store.objects && store.objects[d] == old(store.objects)[d]
      ensures forall p :: p in old(store.payloads) && (p in marked || (p in young && p in old(store.objects))) ==>
                p in store.payloads
      ensures forall r :: r in old(store.renders) && (r in marked || r in youngRenders) ==> r in store.renders
      // and nothing else stays once it has
      ensures swept && ok && !dryRun ==>
                && (forall d :: d in store.objects ==> d in old(store.objects) && (d in marked || d in young))
                && (forall p :: p in store.payloads ==>
                      p in old(store.payloads) && (p in marked || (p in young && p in old(store.objects))))
                && (forall r :: r in store.renders ==>
                      && r in old(store.renders)
                      && (r in marked || r in youngRenders || (r in young && r in old(store.objects))))
      // a dry run reports all that is not marked
      ensures swept && ok && dryRun ==>
                && (forall p :: p in payloads <==>
                      && p !in marked
                      && (p in old(store.payloads) || (p in old(store.objects) && old(store.objects)[p].Blob?)))
                && (forall r :: r in renders <==> r in old(store.renders) && r !in marked)
    {
      hide WalkInv, Walked, FirstVisitsOf, Collected, RootsOf, Kept, NoneRecorded, UpTo;
      swept, ok, payloads, renders := false, false, {}, {};
      PruneStreams();
      SameMarking(store.objects, old(streams), streams, world);
      errors := WalkAttached();
      marked := attached;
      var collected, dropped := CollectResults(|streams|, concurrency, world.finishes);
      if |streams| <= concurrency + 1 {
        AllRecorded(errors, concurrency, world.finishes);
      }
      if !NoneRecorded(errors, collected) {
        return;
      }
      swept := true;
      ghost var start := store;
      var removed, more;
      ok, removed := SweepObjects();
      if !ok {
        return;
      }
      ok, more := SweepPayloads();
      if !ok {
        return;
      }
      payloads := removed + more;
      ok, renders := SweepRenders();
    }
  }

  function KeptOf(stream: Stream): seq<Tag> {
    Kept(stream.config, stream.history, |stream.history|)
  }
}
