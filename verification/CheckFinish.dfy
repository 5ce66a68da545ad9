/**
  Exactly when a check can always be finished, for the ways in which the checker takes up its roots:
  the items of an environment and the objects of a repository in order, so many at a time, and the
  tags of a repository one at a time from each of so many streams.
 */
module CheckFinish {
  import opened Graph
  import opened Check
  import opened CheckProgress
  import opened CheckBlocking

  ghost predicate Finishable(repo: Repo, lim: Limits, roots: seq<Digest>, s: State) {
    exists more :: Finished(roots, Exec(repo, lim, s, more))
  }

  /** However a check has gone so far, as long as nothing has failed, it can still be finished. */
  ghost predicate AlwaysFinishes(repo: Repo, lim: Limits, roots: seq<Digest>) {
    forall moves :: var s := Exec(repo, lim, Init(roots), moves); NoneFailed(s) ==> Finishable(repo, lim, roots, s)
  }

  // ----- Enough permits -----

  lemma {:induction false} ExecKeepsCallsGood(repo: Repo, lim: Limits, roots: seq<Digest>, s: State,
                                              schedule: seq<(nat, bool)>)
    requires BlobsAddressed(repo) && AnnotationsAreBlobs(repo) && Inv(repo, roots, s) && CallsAreGood(repo, s)
    ensures CallsAreGood(repo, Exec(repo, lim, s, schedule))
    decreases |schedule|
  {
    hide Inv, CallsAreGood, BlobsAddressed, AnnotationsAreBlobs;
    if schedule != [] {
      var (i, ok) := schedule[0];
      if i < |s.tasks| {
        StepKeepsCallsGood(repo, lim, roots, s, i, ok);
        StepKeepsInv(repo, lim, roots, s, i, ok);
      }
      ExecKeepsCallsGood(repo, lim, roots, Step(repo, lim, s, i, ok), schedule[1..]);
    }
  }

  /** However a check goes, no more roots are in flight than allowed. */
  lemma {:induction false} ExecKeepsFlight(repo: Repo, lim: Limits, s: State, schedule: seq<(nat, bool)>)
    requires lim.Valid() && RootsInFlight(s.tasks) <= lim.roots
    ensures RootsInFlight(Exec(repo, lim, s, schedule).tasks) <= lim.roots
    decreases |schedule|
  {
    hide RootsInFlight, Step;
    if schedule != [] {
      StepKeepsFlight(repo, lim, s, schedule[0].0, schedule[0].1);
      ExecKeepsFlight(repo, lim, Step(repo, lim, s, schedule[0].0, schedule[0].1), schedule[1..]);
    }
  }

  lemma RunIsGoing(repo: Repo, lim: Limits, roots: seq<Digest>, moves: seq<(nat, bool)>)
    requires BlobsAddressed(repo) && AnnotationsAreBlobs(repo) && lim.Valid()
    requires NoneFailed(Exec(repo, lim, Init(roots), moves))
    ensures Going(repo, lim, roots, Exec(repo, lim, Init(roots), moves))
  {
    assert ParentsWait(Init(roots)) && CallsAreGood(repo, Init(roots));
    NoneInFlight(Init(roots).tasks);
    hide Inv, Exec, ParentsWait, CallsAreGood, NoneFailed, BlobsAddressed, AnnotationsAreBlobs, RootsInFlight;
    InitInv(repo, roots);
    ExecKeepsInv(repo, lim, roots, Init(roots), moves);
    ExecKeepsWaiting(repo, lim, Init(roots), moves);
    ExecKeepsCallsGood(repo, lim, roots, Init(roots), moves);
    ExecKeepsFlight(repo, lim, Init(roots), moves);
  }

  /**
    In whatever way the roots are taken up: if fewer objects than there are permits can be open at
    once below as many roots as can be in flight, every run without a failure can be finished.
   */
  lemma EnoughFinishes(repo: Repo, lim: Limits, rank: Digest -> nat, roots: seq<Digest>)
    requires BlobsAddressed(repo) && AnnotationsAreBlobs(repo) && Ranked(repo.objects, rank)
    requires lim.Valid() && AlwaysEnough(repo, lim, roots)
    ensures AlwaysFinishes(repo, lim, roots)
  {
    hide Exec, AlwaysEnough, BlobsAddressed, AnnotationsAreBlobs, Ranked, Finished, NoneFailed, Going;
    forall moves | NoneFailed(Exec(repo, lim, Init(roots), moves))
      ensures Finishable(repo, lim, roots, Exec(repo, lim, Init(roots), moves))
    {
      RunIsGoing(repo, lim, roots, moves);
      var more := RunsToTheEnd(repo, lim, rank, roots, Exec(repo, lim, Init(roots), moves));
    }
  }

  // ----- Exactly when -----

  lemma BlockedIsNotFinishable(repo: Repo, lim: Limits, roots: seq<Digest>, moves: seq<(nat, bool)>)
    requires BlocksAfter(repo, lim, roots, moves)
    ensures !AlwaysFinishes(repo, lim, roots)
  {
    hide Exec, Finished, NoneFailed;
    var s := Exec(repo, lim, Init(roots), moves);
    assert !Finishable(repo, lim, roots, s);
  }

  /** As many objects as there are permits can be open at once below these roots. */
  ghost predicate TooFew(repo: Repo, permits: nat, heads: set<Digest>) {
    exists open, next :: CanBeOpen(repo, heads, open, next) && |open| >= permits
  }

  /** If the heads can be in flight at once and have too few permits, a check cannot always be finished. */
  lemma TooFewBlocks(repo: Repo, lim: Limits, rank: Digest -> nat, roots: seq<Digest>, heads: set<Digest>)
    requires AnnotationsAreBlobs(repo) && Ranked(repo.objects, rank) && roots != [] && lim.Valid()
    requires CanStart(lim, roots, heads) && TooFew(repo, lim.permits, heads)
    ensures !AlwaysFinishes(repo, lim, roots)
  {
    hide AlwaysFinishes, CanBeOpen, AnnotationsAreBlobs, Ranked, BlocksAfter, CanStart;
    var moves;
    if lim.permits == 0 {
      moves := NoPermitBlocks(repo, lim, roots);
    } else {
      var open, next :| CanBeOpen(repo, heads, open, next) && |open| >= lim.permits;
      moves := OpenObjectsBlock(repo, lim, rank, roots, heads, open, next);
    }
    BlockedIsNotFinishable(repo, lim, roots, moves);
  }

  lemma NotEnoughIsTooFew(repo: Repo, lim: Limits, roots: seq<Digest>) returns (heads: set<Digest>)
    requires !AlwaysEnough(repo, lim, roots)
    ensures heads <= RootSet(roots) && |heads| <= lim.roots && TooFew(repo, lim.permits, heads)
  {
    hide CanBeOpen, RootSet;
    var h, open, next :|
      h <= RootSet(roots) && |h| <= lim.roots && CanBeOpen(repo, h, open, next) && |open| >= lim.permits;
    heads := h;
  }

  lemma {:induction false} NothingMoves(repo: Repo, lim: Limits, schedule: seq<(nat, bool)>)
    ensures Exec(repo, lim, Init([]), schedule) == Init([])
    decreases |schedule|
  {
    if schedule != [] {
      NothingMoves(repo, lim, schedule[1..]);
    }
  }

  lemma NoRootsFinish(repo: Repo, lim: Limits)
    ensures AlwaysFinishes(repo, lim, [])
  {
    hide Exec;
    forall moves
      ensures Finishable(repo, lim, [], Exec(repo, lim, Init([]), moves))
    {
      NothingMoves(repo, lim, moves);
      NothingMoves(repo, lim, []);
      assert Finished([], Exec(repo, lim, Init([]), []));
    }
  }

  lemma RootsCanStart(lim: Limits, roots: seq<Digest>, heads: set<Digest>)
    requires heads <= RootSet(roots) && |heads| <= lim.roots && forall i :: 0 <= i < |roots| ==> Startable(lim, i)
    ensures CanStart(lim, roots, heads)
  {
    hide Startable;
    forall h | h in heads
      ensures StartableAs(lim, roots, h)
    {
      var i :| 0 <= i < |roots| && roots[i] == h;
    }
  }

  /**
    If every root can be taken up whenever fewer than allowed are in flight: a check can be finished
    from every point of every run in which nothing has failed if and only if fewer objects than there
    are permits can be open at once below as many roots as can be in flight, each waiting for a child
    of its own.
   */
  lemma AlwaysFinishesIff(repo: Repo, lim: Limits, rank: Digest -> nat, roots: seq<Digest>)
    requires BlobsAddressed(repo) && AnnotationsAreBlobs(repo) && Ranked(repo.objects, rank)
    requires lim.Valid() && forall i :: 0 <= i < |roots| ==> Startable(lim, i)
    ensures AlwaysFinishes(repo, lim, roots) <==> roots == [] || AlwaysEnough(repo, lim, roots)
  {
    hide AlwaysFinishes, AlwaysEnough, TooFew, BlobsAddressed, AnnotationsAreBlobs, Ranked, Startable, CanStart,
         RootSet;
    if roots == [] {
      NoRootsFinish(repo, lim);
    } else if AlwaysEnough(repo, lim, roots) {
      EnoughFinishes(repo, lim, rank, roots);
    } else {
      var heads := NotEnoughIsTooFew(repo, lim, roots);
      RootsCanStart(lim, roots, heads);
      TooFewBlocks(repo, lim, rank, roots, heads);
    }
  }

  // ----- How roots are taken up -----

  predicate Left(tasks: seq<Task>, i: nat) {
    i < |tasks| && tasks[i].parent.None? && !tasks[i].phase.Done?
  }

  /** The streams that have a root before the `i`-th without a result. */
  function LeftBefore(tasks: seq<Task>, streamOf: nat -> nat, i: nat): set<nat> {
    set k | 0 <= k < i && Left(tasks, k) :: streamOf(k)
  }

  /**
    So many streams at a time, in order, and the roots of each one after the other. A root that has
    been taken up need not have been polled yet.
   */
  function InStreams(permits: nat, n: nat, streamOf: nat -> nat): Limits {
    Limits(permits, n, (tasks: seq<Task>, i: nat) =>
      && streamOf(i) !in LeftBefore(tasks, streamOf, i) && |LeftBefore(tasks, streamOf, i)| < n
      && RootsInFlight(tasks) < n)
  }

  function Itself(k: nat): nat { k }

  /** So many roots at a time, in order. */
  function InOrder(permits: nat, n: nat): Limits {
    InStreams(permits, n, Itself)
  }

  /**
    A root is taken up exactly when fewer than `n` are in flight, those before it in its own stream have
    their results, and fewer than `n` streams have a root before it without one.
   */
  lemma StreamsInTurn(permits: nat, n: nat, streamOf: nat -> nat, tasks: seq<Task>, i: nat)
    requires i < |tasks|
    ensures InStreams(permits, n, streamOf).admits(tasks, i) <==>
            && |set k | 0 <= k < |tasks| && tasks[k].parent.None? && !tasks[k].phase.Start?
                        && !tasks[k].phase.Done?| < n
            && (forall k :: 0 <= k < i && tasks[k].parent.None? && streamOf(k) == streamOf(i) ==> tasks[k].phase.Done?)
            && |set k | 0 <= k < i && tasks[k].parent.None? && !tasks[k].phase.Done? :: streamOf(k)| < n
  {
    FlightCount(tasks);
    var before := set k | 0 <= k < i && tasks[k].parent.None? && !tasks[k].phase.Done? :: streamOf(k);
    assert LeftBefore(tasks, streamOf, i) == before;
  }

  lemma {:induction false} FlightCount(tasks: seq<Task>)
    ensures RootsInFlight(tasks) ==
            |set k | 0 <= k < |tasks| && tasks[k].parent.None? && !tasks[k].phase.Start? && !tasks[k].phase.Done?|
  {
    if tasks != [] {
      var init, last := tasks[..|tasks| - 1], |tasks| - 1;
      FlightCount(init);
      var few := set k | 0 <= k < |init| && init[k].parent.None? && !init[k].phase.Start? && !init[k].phase.Done?;
      var all := set k | 0 <= k < |tasks| && tasks[k].parent.None? && !tasks[k].phase.Start? && !tasks[k].phase.Done?;
      assert all == if InFlight(tasks[last]) then few + {last} else few;
    }
  }

  lemma {:induction false} SomeInFlight(tasks: seq<Task>, i: nat)
    requires i < |tasks| && InFlight(tasks[i])
    ensures RootsInFlight(tasks) > 0
  {
    if i < |tasks| - 1 {
      SomeInFlight(tasks[..|tasks| - 1], i);
    }
  }

  lemma {:induction false} FirstLeft(tasks: seq<Task>, i: nat) returns (first: nat)
    requires Left(tasks, i)
    ensures first <= i && Left(tasks, first) && forall k :: 0 <= k < first ==> !Left(tasks, k)
  {
    if k: nat :| k < i && Left(tasks, k) {
      first := FirstLeft(tasks, k);
    } else {
      first := i;
    }
  }

  lemma StreamsAreValid(permits: nat, n: nat, streamOf: nat -> nat)
    requires n > 0
    ensures InStreams(permits, n, streamOf).Valid()
  {
    var lim := InStreams(permits, n, streamOf);
    forall tasks, i | RootsInFlight(tasks) == 0 && WaitingRoot(tasks, i)
      ensures lim.SomeAdmitted(tasks)
    {
      var first := FirstLeft(tasks, i);
      if InFlight(tasks[first]) {
        SomeInFlight(tasks, first);
      }
      assert LeftBefore(tasks, streamOf, first) == {};
      assert WaitingRoot(tasks, first) && lim.admits(tasks, first);
    }
  }

  function StreamsBefore(streamOf: nat -> nat, i: nat): set<nat> {
    set k | 0 <= k < i :: streamOf(k)
  }

  /** The first root of each of the first streams can be taken up at once. */
  lemma FirstOfStreamsStart(permits: nat, n: nat, streamOf: nat -> nat, i: nat)
    requires streamOf(i) !in StreamsBefore(streamOf, i) && |StreamsBefore(streamOf, i)| < n
    ensures Startable(InStreams(permits, n, streamOf), i)
  {
    forall tasks | WaitingRoot(tasks, i) && RootsInFlight(tasks) < n
      ensures InStreams(permits, n, streamOf).admits(tasks, i)
    {
      assert LeftBefore(tasks, streamOf, i) <= StreamsBefore(streamOf, i);
      SubsetSize(LeftBefore(tasks, streamOf, i), StreamsBefore(streamOf, i));
    }
  }

  lemma {:induction false} NumbersBefore(i: nat)
    ensures |StreamsBefore(Itself, i)| == i && i !in StreamsBefore(Itself, i)
  {
    if i > 0 {
      NumbersBefore(i - 1);
      forall x: nat
        ensures x in StreamsBefore(Itself, i) <==> x in StreamsBefore(Itself, i - 1) + {i - 1}
      {
        assert Itself(x) == x;
      }
      assert StreamsBefore(Itself, i) == StreamsBefore(Itself, i - 1) + {i - 1};
    } else {
      assert StreamsBefore(Itself, 0) == {};
    }
  }

  lemma FirstRootsStart(permits: nat, n: nat, i: nat)
    requires i < n
    ensures Startable(InOrder(permits, n), i)
  {
    NumbersBefore(i);
    FirstOfStreamsStart(permits, n, Itself, i);
  }

  /** As long as all roots are taken up at once, the condition is exact. */
  lemma FewRootsFinishIff(repo: Repo, permits: nat, n: nat, rank: Digest -> nat, roots: seq<Digest>)
    requires BlobsAddressed(repo) && AnnotationsAreBlobs(repo) && Ranked(repo.objects, rank)
    requires n > 0 && |roots| <= n
    ensures AlwaysFinishes(repo, InOrder(permits, n), roots)
            <==> roots == [] || AlwaysEnough(repo, InOrder(permits, n), roots)
  {
    hide AlwaysFinishes, AlwaysEnough, BlobsAddressed, AnnotationsAreBlobs, Ranked, Startable;
    StreamsAreValid(permits, n, Itself);
    forall i | 0 <= i < |roots|
      ensures Startable(InOrder(permits, n), i)
    {
      FirstRootsStart(permits, n, i);
    }
    AlwaysFinishesIff(repo, InOrder(permits, n), rank, roots);
  }

  // ----- Roots in an order that nobody has chosen -----

  /** The heads can be put first. */
  lemma {:induction false} HeadsFirst(roots: seq<Digest>, heads: set<Digest>) returns (order: seq<Digest>)
    requires heads <= RootSet(roots)
    ensures multiset(order) == multiset(roots) && |heads| <= |order|
    ensures forall h :: h in heads ==> h in order[..|heads|]
    decreases |heads|
  {
    if heads == {} {
      order := roots;
    } else {
      var h :| h in heads;
      var i :| 0 <= i < |roots| && roots[i] == h;
      var others := roots[..i] + roots[i + 1..];
      OthersStay(roots, i, others);
      forall d | d in heads - {h}
        ensures d in RootSet(others)
      {
        var j :| 0 <= j < |roots| && roots[j] == d;
        assert others[if j < i then j else j - 1] == d;
      }
      var rest := HeadsFirst(others, heads - {h});
      order := [h] + rest;
      FirstOnes(h, rest, heads);
    }
  }

  lemma OthersStay(roots: seq<Digest>, i: nat, others: seq<Digest>)
    requires i < |roots| && others == roots[..i] + roots[i + 1..]
    ensures multiset(roots) == multiset([roots[i]]) + multiset(others)
  {
    assert roots == roots[..i] + [roots[i]] + roots[i + 1..];
  }

  lemma FirstOnes(h: Digest, rest: seq<Digest>, heads: set<Digest>)
    requires h in heads && |heads| - 1 <= |rest| && forall d :: d in heads - {h} ==> d in rest[..|heads| - 1]
    ensures forall d :: d in heads ==> d in ([h] + rest)[..|heads|]
  {
    var order := [h] + rest;
    forall d | d in heads
      ensures d in order[..|heads|]
    {
      if d == h {
        assert order[..|heads|][0] == h;
      } else {
        assert d in heads - {h};
        var first := rest[..|heads| - 1];
        var j :| 0 <= j < |first| && first[j] == d;
        assert order[..|heads|][j + 1] == d;
      }
    }
  }

  lemma SameRoots(roots: seq<Digest>, order: seq<Digest>)
    requires multiset(order) == multiset(roots)
    ensures RootSet(order) == RootSet(roots) && |order| == |roots|
  {
    forall d
      ensures d in RootSet(order) <==> d in RootSet(roots)
    {
      assert d in order <==> d in multiset(order);
      assert d in roots <==> d in multiset(roots);
    }
    assert |multiset(order)| == |order| && |multiset(roots)| == |roots|;
  }

  /** The roots in whatever order. */
  ghost predicate FinishesInAnyOrder(repo: Repo, lim: Limits, roots: seq<Digest>) {
    forall order: seq<Digest> :: multiset(order) == multiset(roots) ==> AlwaysFinishes(repo, lim, order)
  }

  lemma SomeOrderBlocks(repo: Repo, permits: nat, n: nat, rank: Digest -> nat, roots: seq<Digest>, heads: set<Digest>)
    requires AnnotationsAreBlobs(repo) && Ranked(repo.objects, rank) && n > 0 && roots != []
    requires heads <= RootSet(roots) && |heads| <= n && TooFew(repo, permits, heads)
    ensures !FinishesInAnyOrder(repo, InOrder(permits, n), roots)
  {
    hide AlwaysFinishes, AnnotationsAreBlobs, Ranked, TooFew, RootSet, Startable;
    var lim := InOrder(permits, n);
    StreamsAreValid(permits, n, Itself);
    var order := HeadsFirst(roots, heads);
    SameRoots(roots, order);
    forall h | h in heads
      ensures StartableAs(lim, order, h)
    {
      var i :| 0 <= i < |heads| && order[..|heads|][i] == h;
      FirstRootsStart(permits, n, i);
      assert order[i] == h;
    }
    TooFewBlocks(repo, lim, rank, order, heads);
  }

  /**
    For any number of roots, so many in flight at a time: a check can always be finished, in whatever
    order the roots come, if and only if fewer objects than there are permits can be open at once below
    that many roots.
   */
  lemma FinishesInAnyOrderIff(repo: Repo, permits: nat, n: nat, rank: Digest -> nat, roots: seq<Digest>)
    requires BlobsAddressed(repo) && AnnotationsAreBlobs(repo) && Ranked(repo.objects, rank) && n > 0
    ensures FinishesInAnyOrder(repo, InOrder(permits, n), roots)
            <==> roots == [] || AlwaysEnough(repo, InOrder(permits, n), roots)
  {
    var lim := InOrder(permits, n);
    StreamsAreValid(permits, n, Itself);
    hide AlwaysFinishes, CanBeOpen, BlobsAddressed, AnnotationsAreBlobs, Ranked, TooFew, RootSet;
    if roots == [] {
      forall order: seq<Digest> | multiset(order) == multiset(roots)
        ensures AlwaysFinishes(repo, lim, order)
      {
        SameRoots(roots, order);
        NoRootsFinish(repo, lim);
      }
    } else if AlwaysEnough(repo, lim, roots) {
      forall order: seq<Digest> | multiset(order) == multiset(roots)
        ensures AlwaysFinishes(repo, lim, order)
      {
        SameRoots(roots, order);
        assert AlwaysEnough(repo, lim, order);
        EnoughFinishes(repo, lim, rank, order);
      }
    } else {
      var heads := NotEnoughIsTooFew(repo, lim, roots);
      SomeOrderBlocks(repo, permits, n, rank, roots, heads);
    }
  }

  // ----- How many permits are enough -----

  /** Whatever is open is below one of the heads. */
  lemma {:induction false} OpenBelowHeads(repo: Repo, rank: Digest -> nat, heads: set<Digest>, open: set<Digest>,
                                          next: map<Digest, Digest>, d: Digest)
    returns (h: Digest)
    requires Ranked(repo.objects, rank) && CanBeOpen(repo, heads, open, next) && d in open
    ensures h in heads && Reachable(repo.objects, {h}, d)
    decreases |open|
  {
    hide Reachable, Ranked;
    var m := Lowest(rank, open);
    WithoutLowest(repo, rank, heads, open, next, m);
    if d != m {
      h := OpenBelowHeads(repo, rank, heads, open - {m}, next, d);
    } else {
      assert Called(repo, heads, open, d);
      if d in heads {
        h := d;
        RootReachable(repo.objects, {h}, d);
      } else {
        var p :| p in open && Edge(repo.objects, p, d);
        h := OpenBelowHeads(repo, rank, heads, open - {m}, next, p);
        ReachableStep(repo.objects, {h}, p, d);
      }
    }
  }

  lemma OpenIsInnerOfHead(repo: Repo, rank: Digest -> nat, heads: set<Digest>, open: set<Digest>,
                          next: map<Digest, Digest>, d: Digest)
    returns (h: Digest)
    requires Ranked(repo.objects, rank) && CanBeOpen(repo, heads, open, next) && d in open
    ensures h in heads && d in Inner(repo, [h])
  {
    h := OpenBelowHeads(repo, rank, heads, open, next, d);
    assert Edge(repo.objects, d, next[d]);
    assert RootSet([h]) == {h} by {
      assert [h][0] == h;
    }
  }

  lemma {:induction false} FewBelowEach(repo: Repo, heads: set<Digest>, each: nat, open: set<Digest>)
    requires forall h :: h in heads ==> |Inner(repo, [h])| <= each
    requires forall d :: d in open ==> exists h :: h in heads && d in Inner(repo, [h])
    ensures |open| <= |heads| * each
    decreases |heads|
  {
    hide Inner;
    if heads == {} {
      assert open == {};
    } else {
      var h :| h in heads;
      var here := set d | d in open && d in Inner(repo, [h]);
      FewBelowEach(repo, heads - {h}, each, open - here);
      SubsetSize(here, Inner(repo, [h]));
      assert open == here + (open - here);
      assert |heads| * each == (|heads| - 1) * each + each;
    }
  }

  /**
    If no root reaches more than `each` objects with children, permits for that many objects below
    each root in flight, and one more, are enough for any number of roots.
   */
  lemma PermitsPerRoot(repo: Repo, lim: Limits, rank: Digest -> nat, roots: seq<Digest>, each: nat)
    requires BlobsAddressed(repo) && AnnotationsAreBlobs(repo) && Ranked(repo.objects, rank) && lim.Valid()
    requires (forall h :: h in RootSet(roots) ==> |Inner(repo, [h])| <= each) && lim.permits > lim.roots * each
    ensures AlwaysFinishes(repo, lim, roots)
  {
    hide AlwaysFinishes, BlobsAddressed, AnnotationsAreBlobs, Ranked, CanBeOpen, Inner, RootSet;
    forall heads, open, next | heads <= RootSet(roots) && |heads| <= lim.roots && CanBeOpen(repo, heads, open, next)
      ensures |open| < lim.permits
    {
      forall d | d in open
        ensures exists h :: h in heads && d in Inner(repo, [h])
      {
        var h := OpenIsInnerOfHead(repo, rank, heads, open, next, d);
      }
      FewBelowEach(repo, heads, each, open);
      assert |heads| * each <= lim.roots * each;
    }
    EnoughFinishes(repo, lim, rank, roots);
  }

  // ----- Objects nested in each other -----

  /** The objects and what they wait for all rank at least as high as `c`. */
  ghost predicate AllAbove(rank: Digest -> nat, open: set<Digest>, next: map<Digest, Digest>, c: Digest) {
    open <= next.Keys && forall d :: d in open ==> rank(next[d]) >= rank(c) && rank(d) > rank(c)
  }

  lemma OneDeeper(repo: Repo, rank: Digest -> nat, heads: set<Digest>, open: set<Digest>, next: map<Digest, Digest>,
                  d: Digest, c: Digest)
    requires CanBeOpen(repo, heads, open, next) && Edge(repo.objects, d, c) && Called(repo, heads, open, d)
    requires AllAbove(rank, open, next, d) && rank(c) < rank(d)
    ensures CanBeOpen(repo, heads, open + {d}, next[d := c]) && Called(repo, heads, open + {d}, c)
    ensures d !in open && AllAbove(rank, open + {d}, next[d := c], c)
  {
    hide Edge;
    forall e | e in open + {d}
      ensures Called(repo, heads, open + {d}, e)
    {
      assert Called(repo, heads, open, e);
    }
  }

  lemma WalkGoesDown(repo: Repo, rank: Digest -> nat, path: seq<Digest>)
    requires Ranked(repo.objects, rank) && Walk(repo.objects, path) && |path| > 1
    ensures Edge(repo.objects, path[|path| - 2], path[|path| - 1]) && Walk(repo.objects, path[..|path| - 1])
    ensures rank(path[|path| - 1]) < rank(path[|path| - 2])
  {
  }

  /** Objects that are nested in each other can be open at once. */
  lemma {:induction false} PathIsOpen(repo: Repo, rank: Digest -> nat, heads: set<Digest>, path: seq<Digest>)
    returns (open: set<Digest>, next: map<Digest, Digest>)
    requires Ranked(repo.objects, rank) && Walk(repo.objects, path) && path[0] in heads
    ensures CanBeOpen(repo, heads, open, next) && |open| == |path| - 1
    ensures AllAbove(rank, open, next, path[|path| - 1]) && Called(repo, heads, open, path[|path| - 1])
    decreases |path|
  {
    if |path| == 1 {
      hide Edge, Walk, Ranked;
      open, next := {}, map[];
    } else {
      var d, c := path[|path| - 2], path[|path| - 1];
      WalkGoesDown(repo, rank, path);
      hide Edge, Walk, CanBeOpen, Ranked, Called, AllAbove;
      var before, nexts := PathIsOpen(repo, rank, heads, path[..|path| - 1]);
      open, next := before + {d}, nexts[d := c];
      OneDeeper(repo, rank, heads, before, nexts, d, c);
    }
  }

  /** With as many permits as objects are nested in each other above one more digest, some run blocks. */
  lemma NestedObjectsBlock(repo: Repo, lim: Limits, rank: Digest -> nat, roots: seq<Digest>, path: seq<Digest>)
    returns (moves: seq<(nat, bool)>)
    requires AnnotationsAreBlobs(repo) && Ranked(repo.objects, rank) && lim.roots > 0
    requires Walk(repo.objects, path) && StartableAs(lim, roots, path[0]) && |path| == lim.permits + 1 > 1
    ensures BlocksAfter(repo, lim, roots, moves)
  {
    hide BlocksAfter, AnnotationsAreBlobs, Walk, StartableAs;
    var open, next := PathIsOpen(repo, rank, {path[0]}, path);
    moves := OpenObjectsBlock(repo, lim, rank, roots, {path[0]}, open, next);
  }
}
