/**
  Whole cleans side by side: a dry run and a real run on the same state, and a run in which the
  throttle loses an error. What a clean marks, when it sweeps and what it then removes are the
  functions in which the contract of the cleaner is written.
 */
module CleanRuns {
  import opened Graph
  import opened Prune
  import opened Clean

  lemma SweepMarksReachable(objects: Objects, streams: seq<Stream>, concurrency: nat, world: World, d: Digest)
    requires world.Valid() && |streams| <= concurrency + 1 && Sweeps(objects, streams, concurrency, world)
    ensures d in Marking(objects, streams, world).0 <==> Reachable(objects, RootsOf(streams), d)
  {
    hide Marking, Reachable, RootsOf, NoneRecorded, Collected, Finishes;
    var outcome := Marking(objects, streams, world);
    AllRecorded(outcome.1, concurrency, world.finishes);
  }

  /**
    A dry run and a real run on the same state, each with whatever order of events: if both reach the
    sweep, they have marked the same, and the dry run reports every payload and every render that the
    real run removes.
   */
  lemma DryRunAgainstRealRun(store: Store, streams: seq<Stream>, concurrency: nat, young: set<Digest>,
                             youngRenders: set<Digest>, dryWorld: World, actualWorld: World)
    requires dryWorld.Valid() && actualWorld.Valid() && |streams| <= concurrency + 1
    requires Sweeps(store.objects, streams, concurrency, dryWorld)
             && Sweeps(store.objects, streams, concurrency, actualWorld)
    ensures var dry, actual :=
              Marking(store.objects, streams, dryWorld).0, Marking(store.objects, streams, actualWorld).0;
            && dry == actual
            && PayloadReport(store, actual, young) <= DryPayloadReport(store, dry)
            && RenderReport(store, AttachedWithYoung(store, actual, young), youngRenders)
               <= RenderReport(store, dry, {})
  {
    hide *;
    var dry, actual := Marking(store.objects, streams, dryWorld).0, Marking(store.objects, streams, actualWorld).0;
    forall d
      ensures d in dry <==> d in actual
    {
      SweepMarksReachable(store.objects, streams, concurrency, dryWorld, d);
      SweepMarksReachable(store.objects, streams, concurrency, actualWorld, d);
    }
    assert dry == actual;
    DryRunReportsAllRemovals(store, actual, young, youngRenders);
  }

  // ----- A lost error -----

  const KEEP_ALL: Config := Config(PruneParameters(None, None, None, None), None, true)

  /** The first stream has a tag for the platform, and each of the others one for a blob of its own. */
  function TargetOf(i: nat): Digest {
    if i == 0 then 1 else i + 2
  }

  /** So many streams, with one tag each, that one result will be dropped. */
  function OneTagEach(concurrency: nat): seq<Stream> {
    seq(concurrency + 2, (i: nat) => Stream(KEEP_ALL, [Tag(TargetOf(i), 0)]))
  }

  /** A platform of one layer, and the blobs. */
  function PlatformAndBlobs(concurrency: nat): Store {
    var blobs := UpTo(concurrency + 4) - {0, 1, 2};
    Store(map[1 := Platform([2]), 2 := Layer(None, [])] + map d | d in blobs :: Blob(d), blobs, {})
  }

  /** Only the platform cannot be read, and its stream is the first to finish. */
  ghost predicate Unlucky(world: World) {
    world.Valid() && (forall v :: world.readable(v) <==> v != Visit(0, 1)) && (forall r :: world.removes(r))
        && ZeroFirst(world.finishes)
  }

  ghost predicate ZeroFirst(finishes: set<nat> -> nat) {
    forall s :: 0 in s ==> finishes(s) == 0
  }

  lemma OneTagIsKept(target: Digest)
    ensures Targets(KeptOf(Stream(KEEP_ALL, [Tag(target, 0)]))) == {target}
  {
    var history := [Tag(target, 0)];
    assert Kept(KEEP_ALL, history, 1) == history by {
      assert Kept(KEEP_ALL, history, 0) == [];
      assert !IsPruned(KEEP_ALL, history, 0);
    }
    assert Targets(history) == {target} by {
      assert history[0].target == target;
    }
  }

  lemma StreamTargets(concurrency: nat)
    ensures forall v :: v in FirstVisitsOf(OneTagEach(concurrency)) <==>
              v.stream < concurrency + 2 && v.digest == TargetOf(v.stream)
    ensures 1 in RootsOf(OneTagEach(concurrency))
  {
    var streams := OneTagEach(concurrency);
    forall i | 0 <= i < |streams|
      ensures Targets(KeptOf(streams[i])) == {TargetOf(i)}
    {
      OneTagIsKept(TargetOf(i));
    }
    assert TargetOf(0) == 1;
  }

  /** Where the walk stands: the visit of the platform is to enter, is reading, or has failed. */
  ghost predicate Losing(concurrency: nat, w: WalkState, errors: seq<nat>) {
    var v := Visit(0, 1);
    && (forall x :: x in w.calls || x in w.reading ==> x.stream < concurrency + 2 && x.digest == TargetOf(x.stream))
    && (forall d :: d in w.attached ==> d != 2)
    && |errors| == concurrency + 2 && (forall i :: 1 <= i < |errors| ==> errors[i] == 0)
    && (v in w.calls ==> v !in w.reading && 1 !in w.attached)
    && errors[0] == if v in w.calls || v in w.reading then 0 else 1
  }

  lemma EnterLoses(concurrency: nat, w: WalkState, errors: seq<nat>, v: Visit)
    requires Losing(concurrency, w, errors) && v in w.calls
    ensures Losing(concurrency, Enter(w, v), errors)
  {
  }

  lemma LoadLoses(concurrency: nat, w: WalkState, errors: seq<nat>, v: Visit)
    requires Losing(concurrency, w, errors) && v in w.reading && v != Visit(0, 1)
    ensures Losing(concurrency, Load(PlatformAndBlobs(concurrency).objects, w, v), errors)
  {
    UpToMeans(concurrency + 4);
    assert PlatformAndBlobs(concurrency).objects[v.digest] == Blob(v.digest);
    assert Visits(v.stream, []) == {};
  }

  lemma FailLoses(concurrency: nat, w: WalkState, errors: seq<nat>, v: Visit)
    requires Losing(concurrency, w, errors) && v in w.reading && v == Visit(0, 1)
    ensures Losing(concurrency, Fail(w, v), errors[v.stream := errors[v.stream] + 1])
  {
  }

  /** Whatever the order of visits, the platform is not read, so its layer is not attached. */
  lemma {:induction false} WalkLoses(concurrency: nat, roots: set<Digest>, w: WalkState, errors: seq<nat>, world: World)
    requires Unlucky(world) && Losing(concurrency, w, errors)
    requires WalkInv(PlatformAndBlobs(concurrency).objects, roots, concurrency + 2, w, true)
    ensures var outcome := Walked(PlatformAndBlobs(concurrency).objects, roots, concurrency + 2, w, errors, world);
            2 !in outcome.0 && outcome.1 == Zeros(concurrency + 2)[0 := 1]
    decreases Unattached(PlatformAndBlobs(concurrency).objects, roots, w), Reads(w), Pending(w)
  {
    var objects := PlatformAndBlobs(concurrency).objects;
    hide WalkInv, Unattached, Reads, Pending, Load, Enter, Fail, PlatformAndBlobs, ZeroFirst;
    if w.calls != {} || w.reading != {} {
      var v := world.next(w);
      VisitKeeps(objects, roots, concurrency + 2, w, true, v);
      if v in w.calls && (world.enters(w) || v !in w.reading) {
        EnterLoses(concurrency, w, errors, v);
        WalkLoses(concurrency, roots, Enter(w, v), errors, world);
      } else if world.readable(v) {
        LoadLoses(concurrency, w, errors, v);
        WalkLoses(concurrency, roots, Load(objects, w, v), errors, world);
      } else {
        FailLoses(concurrency, w, errors, v);
        WalkLoses(concurrency, roots, Fail(w, v), errors[v.stream := errors[v.stream] + 1], world);
      }
    }
  }

  lemma MarkingLoses(concurrency: nat, world: World)
    requires Unlucky(world)
    ensures var outcome := Marking(PlatformAndBlobs(concurrency).objects, OneTagEach(concurrency), world);
            2 !in outcome.0 && outcome.1 == Zeros(concurrency + 2)[0 := 1]
  {
    var objects, streams := PlatformAndBlobs(concurrency).objects, OneTagEach(concurrency);
    StreamTargets(concurrency);
    hide RootsOf, FirstVisitsOf, WalkInv, Exact, PlatformAndBlobs, Walked;
    MarkingStarts(objects, streams);
    WalkLoses(concurrency, RootsOf(streams), WalkState({}, FirstVisitsOf(streams), {}), Zeros(concurrency + 2), world);
  }

  lemma ResultIsDropped(concurrency: nat, finishes: set<nat> -> nat)
    requires Finishes(finishes) && ZeroFirst(finishes)
    ensures 0 !in Collected(concurrency + 2, concurrency, finishes)
  {
    hide Collected, UpTo, Left, Finishes;
    AllCollected(concurrency + 1, concurrency, finishes);
    UpToMeans(concurrency + 1);
    CollectedNext(concurrency + 1, concurrency, finishes);
    var x := NotLeft(UpTo(concurrency + 1), concurrency, finishes);
  }

  lemma LayerIsReachable(concurrency: nat)
    ensures var objects := PlatformAndBlobs(concurrency).objects;
            2 in objects && BlobsAddressed(objects) && Reachable(objects, RootsOf(OneTagEach(concurrency)), 2)
  {
    var objects, roots := PlatformAndBlobs(concurrency).objects, RootsOf(OneTagEach(concurrency));
    StreamTargets(concurrency);
    hide RootsOf, Reachable;
    RootReachable(objects, roots, 1);
    ReachableStep(objects, roots, 1, 2);
  }

  lemma OnlyFirstRecorded(n: nat, collected: set<nat>)
    requires n > 0 && 0 !in collected
    ensures NoneRecorded(Zeros(n)[0 := 1], collected)
  {
  }

  /**
    With one stream more than `concurrency + 1`, a clean of a repository with one tag in every stream
    goes on to the sweep although it has recorded an error, and an object that a kept tag reaches is
    among those that the sweep removes.
   */
  lemma ErrorIsLost(concurrency: nat, world: World)
    requires Unlucky(world)
    ensures var store, streams := PlatformAndBlobs(concurrency), OneTagEach(concurrency);
            var (marked, errors) := Marking(store.objects, streams, world);
            && |streams| == concurrency + 2 && BlobsAddressed(store.objects)
            && errors[0] == 1 && Sweeps(store.objects, streams, concurrency, world)
            && 2 in store.objects && Reachable(store.objects, RootsOf(streams), 2)
                && 2 in Unprotected(store, marked, {})
  {
    hide Marking, Collected, RootsOf, Reachable, PlatformAndBlobs, NoneRecorded, Finishes, ZeroFirst, BlobsAddressed,
         Exact;
    LayerIsReachable(concurrency);
    MarkingLoses(concurrency, world);
    ResultIsDropped(concurrency, world.finishes);
    OnlyFirstRecorded(concurrency + 2, Collected(concurrency + 2, concurrency, world.finishes));
  }

  ghost function SomeVisit(w: WalkState): (v: Visit)
    ensures w.calls != {} || w.reading != {} ==> v in w.calls || v in w.reading
  {
    if w.calls != {} then var v :| v in w.calls; v
    else if w.reading != {} then var v :| v in w.reading; v
    else Visit(0, 0)
  }

  ghost function SomeStream(s: set<nat>): (i: nat)
    ensures s != {} ==> i in s
    ensures 0 in s ==> i == 0
  {
    if s == {} || 0 in s then 0 else var i :| i in s; i
  }

  /** Nothing in the way of such a run. */
  lemma SomeoneIsUnlucky() returns (world: World)
    ensures Unlucky(world)
  {
    world := World((w: WalkState) => SomeVisit(w), (w: WalkState) => true, (v: Visit) => v != Visit(0, 1),
                   (s: set<nat>) => SomeStream(s), (r: Removal) => true);
  }
}
