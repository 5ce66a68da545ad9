/**
  When a check can go on: every task holds one of the object permits while the children of its object
  are checked, so with too few of them a check blocks for ever; and only so many roots are in flight.
 */
module CheckProgress {
  import opened Graph
  import opened Check

  // ----- Enough permits -----

  /** The objects with children that a check reaches: those that can hold a permit while waiting. */
  ghost function Inner(repo: Repo, roots: seq<Digest>): set<Digest> {
    set d | d in repo.objects && !repo.objects[d].Blob? && Reachable(repo.objects, RootSet(roots), d)
  }

  /** A task that has made its call is waited for until its result has been handed over. */
  ghost predicate ParentsWait(s: State) {
    forall k :: 0 <= k < |s.tasks| ==> ParentWaits(s, k)
  }

  predicate ParentWaits(s: State, k: nat)
    requires k < |s.tasks|
  {
    var t := s.tasks[k];
    t.parent.Some? && !t.phase.Delivered? ==>
      t.parent.value < k && (s.tasks[t.parent.value].phase.Waiting? || s.tasks[t.parent.value].phase.Failed?)
  }

  /** A step moves task `i`; a finished call also moves the task that made it, which waits or fails. */
  lemma StepMoves(repo: Repo, lim: Limits, s: State, i: nat, ok: bool, k: nat)
    requires k < |s.tasks|
    ensures var s' := Step(repo, lim, s, i, ok);
            && k < |s'.tasks| && s'.tasks[k].parent == s.tasks[k].parent
            && (k != i && !s.tasks[k].phase.Waiting? ==> s'.tasks[k] == s.tasks[k])
            && (k != i && s.tasks[k].phase.Waiting? ==> s'.tasks[k].phase.Waiting? || s'.tasks[k].phase.Failed?)
  {
    hide Items, Open;
  }

  lemma StepMovesSelf(repo: Repo, lim: Limits, s: State, i: nat, ok: bool)
    requires i < |s.tasks|
    ensures var s' := Step(repo, lim, s, i, ok);
            && i < |s'.tasks| && (s.tasks[i].phase.Delivered? ==> s'.tasks[i].phase.Delivered?)
            && (s.tasks[i].phase.Failed? ==> s'.tasks[i].phase.Failed?)
            && (s.tasks[i].phase.Waiting? ==>
                  s'.tasks[i].phase.Waiting? || (CallsFinished(s, i) && |s'.tasks| == |s.tasks|))
            && |s'.tasks| <= |s.tasks| + 1
            && (|s'.tasks| > |s.tasks| ==>
                  s.tasks[i].phase.Waiting? && s'.tasks[i].phase.Waiting? && s'.tasks[|s.tasks|].parent == Some(i))
  {
    hide Items, Open;
  }

  lemma StepKeepsWaiting(repo: Repo, lim: Limits, s: State, i: nat, ok: bool)
    requires ParentsWait(s)
    ensures ParentsWait(Step(repo, lim, s, i, ok))
  {
    var s' := Step(repo, lim, s, i, ok);
    if i < |s.tasks| {
      StepMovesSelf(repo, lim, s, i, ok);
      hide Step, Open;
      forall k | 0 <= k < |s'.tasks|
        ensures ParentWaits(s', k)
      {
        if k < |s.tasks| {
          assert ParentWaits(s, k);
          StepMoves(repo, lim, s, i, ok, k);
          if s.tasks[k].parent.Some? && s.tasks[k].parent.value < k {
            StepMoves(repo, lim, s, i, ok, s.tasks[k].parent.value);
          }
        }
      }
    }
  }

  lemma {:induction false} ExecKeepsWaiting(repo: Repo, lim: Limits, s: State, schedule: seq<(nat, bool)>)
    requires ParentsWait(s)
    ensures ParentsWait(Exec(repo, lim, s, schedule))
    decreases |schedule|
  {
    if schedule != [] {
      hide ParentsWait, Step;
      StepKeepsWaiting(repo, lim, s, schedule[0].0, schedule[0].1);
      ExecKeepsWaiting(repo, lim, Step(repo, lim, s, schedule[0].0, schedule[0].1), schedule[1..]);
    }
  }

  /** The digests whose objects are open. */
  ghost function OpenDigests(tasks: seq<Task>): set<Digest> {
    if tasks == [] then {}
    else
      var last := tasks[|tasks| - 1];
      OpenDigests(tasks[..|tasks| - 1]) + if last.phase.Waiting? then {last.digest} else {}
  }

  lemma {:induction false} OpenDigestsMeans(tasks: seq<Task>, d: Digest)
    ensures d in OpenDigests(tasks) <==> exists i :: 0 <= i < |tasks| && tasks[i].phase.Waiting? && tasks[i].digest == d
  {
    if tasks != [] {
      OpenDigestsMeans(tasks[..|tasks| - 1], d);
    }
  }

  predicate DistinctOpen(tasks: seq<Task>) {
    forall i, j :: 0 <= i < j < |tasks| && tasks[i].phase.Waiting? && tasks[j].phase.Waiting? ==>
      tasks[i].digest != tasks[j].digest
  }

  lemma {:induction false} OpenIsCounted(tasks: seq<Task>)
    requires DistinctOpen(tasks)
    ensures Open(tasks) == |OpenDigests(tasks)|
  {
    if tasks != [] {
      OpenIsCounted(tasks[..|tasks| - 1]);
      OpenDigestsMeans(tasks[..|tasks| - 1], tasks[|tasks| - 1].digest);
    }
  }

  lemma {:induction false} SubsetSize(a: set<Digest>, b: set<Digest>)
    requires a <= b
    ensures |a| <= |b|
  {
    if a != {} {
      var x :| x in a;
      SubsetSize(a - {x}, b - {x});
    }
  }

  lemma OpenIsDistinct(repo: Repo, roots: seq<Digest>, s: State)
    requires Inv(repo, roots, s)
    ensures DistinctOpen(s.tasks)
  {
    hide Reports, Coverage, Reachable, Items, OfAll, Of;
    forall i, j | 0 <= i < j < |s.tasks| && s.tasks[i].phase.Waiting? && s.tasks[j].phase.Waiting?
      ensures s.tasks[i].digest != s.tasks[j].digest
    {
      assert TaskOk(repo, s, s.tasks[i]) && TaskOk(repo, s, s.tasks[j]);
    }
  }

  lemma OpenIsInner(repo: Repo, roots: seq<Digest>, s: State, d: Digest)
    requires Inv(repo, roots, s) && d in OpenDigests(s.tasks)
    ensures d in Inner(repo, roots)
  {
    hide Reports, Coverage, Reachable, Items, OfAll, Of, Ownership;
    OpenDigestsMeans(s.tasks, d);
    var i :| 0 <= i < |s.tasks| && s.tasks[i].phase.Waiting? && s.tasks[i].digest == d;
    assert TaskOk(repo, s, s.tasks[i]);
  }

  /** No more tasks hold a permit than there are objects with children to be found. */
  lemma OpenWithinInner(repo: Repo, roots: seq<Digest>, s: State)
    requires Inv(repo, roots, s)
    ensures Open(s.tasks) <= |Inner(repo, roots)|
  {
    hide Inv, Inner, OpenDigests, Open, DistinctOpen;
    OpenIsDistinct(repo, roots, s);
    forall d | d in OpenDigests(s.tasks)
      ensures d in Inner(repo, roots)
    {
      OpenIsInner(repo, roots, s, d);
    }
    OpenIsCounted(s.tasks);
    SubsetSize(OpenDigests(s.tasks), Inner(repo, roots));
  }

  /** A task that has been taken up and is not finished. */
  predicate Underway(roots: seq<Digest>, s: State, i: nat) {
    && i < |s.tasks| && !WaitingRoot(s.tasks, i)
    && if i < |roots| then !s.tasks[i].phase.Done? else !s.tasks[i].phase.Delivered?
  }

  lemma {:induction false} LastUnderway(roots: seq<Digest>, s: State, n: nat) returns (i: nat)
    requires n <= |s.tasks| && exists j :: Underway(roots, s, j)
    requires forall j :: n <= j < |s.tasks| ==> !Underway(roots, s, j)
    ensures i < n && Underway(roots, s, i) && forall j :: i < j < |s.tasks| ==> !Underway(roots, s, j)
  {
    if Underway(roots, s, n - 1) {
      i := n - 1;
    } else {
      i := LastUnderway(roots, s, n - 1);
    }
  }

  lemma LastCanMove(repo: Repo, lim: Limits, roots: seq<Digest>, s: State, i: nat)
    requires Shape(repo, roots, s) && ParentsWait(s) && Underway(roots, s, i) && Open(s.tasks) < lim.permits
    requires forall j :: i < j < |s.tasks| ==> !Underway(roots, s, j)
    requires forall j :: 0 <= j < |s.tasks| ==> !s.tasks[j].phase.Failed?
    requires i < |roots| ==> !s.tasks[i].phase.Delivered?
    ensures Step(repo, lim, s, i, true) != s
  {
    hide Items, Open, Reachable;
    assert ParentWaits(s, i);
    if s.tasks[i].phase.Waiting? {
      forall k | 0 <= k < |s.tasks| && s.tasks[k].parent == Some(i)
        ensures s.tasks[k].phase.Delivered?
      {
        assert k >= |roots| && !Underway(roots, s, k);
      }
      assert CallsFinished(s, i);
    }
  }

  lemma {:induction false} NoneInFlight(tasks: seq<Task>)
    requires forall i :: 0 <= i < |tasks| ==> !InFlight(tasks[i])
    ensures RootsInFlight(tasks) == 0
  {
    if tasks != [] {
      NoneInFlight(tasks[..|tasks| - 1]);
    }
  }

  /** If no task is underway, the next root can be taken up. */
  lemma NextRootMoves(repo: Repo, lim: Limits, roots: seq<Digest>, s: State, j: nat) returns (i: nat)
    requires lim.Valid() && Shape(repo, roots, s) && WaitingRoot(s.tasks, j)
    requires forall k :: 0 <= k < |s.tasks| ==> !Underway(roots, s, k)
    ensures Step(repo, lim, s, i, true) != s
  {
    hide Reachable, RootsInFlight, Items, Open;
    forall k | 0 <= k < |s.tasks|
      ensures !InFlight(s.tasks[k])
    {
      assert !Underway(roots, s, k);
    }
    NoneInFlight(s.tasks);
    assert lim.SomeAdmitted(s.tasks);
    i :| WaitingRoot(s.tasks, i) && lim.admits(s.tasks, i);
    assert Step(repo, lim, s, i, true).tasks[i].phase != Start;
  }

  lemma SomeTaskMoves(repo: Repo, lim: Limits, roots: seq<Digest>, s: State) returns (i: nat)
    requires lim.Valid() && lim.permits > Open(s.tasks)
    requires Inv(repo, roots, s) && ParentsWait(s) && !Finished(roots, s)
    requires forall j :: 0 <= j < |s.tasks| ==> !s.tasks[j].phase.Failed?
    ensures Step(repo, lim, s, i, true) != s
  {
    hide Ownership, Coverage, Reports, Reachable, Items, OfAll, Of, Open, ParentsWait;
    var j :| 0 <= j < |s.tasks| && !if j < |roots| then s.tasks[j].phase.Done? else s.tasks[j].phase.Delivered?;
    if exists k :: Underway(roots, s, k) {
      i := LastUnderway(roots, s, |s.tasks|);
      assert TaskOk(repo, s, s.tasks[i]);
      hide TaskOk, Step;
      LastCanMove(repo, lim, roots, s, i);
    } else {
      assert !Underway(roots, s, j);
      hide Step, TaskOk;
      i := NextRootMoves(repo, lim, roots, s, j);
    }
  }

  /**
    With more permits than there are objects with children, at every moment of every run in which
    nothing has failed, the check is finished or some task can move.
   */
  lemma NoDeadlock(repo: Repo, lim: Limits, roots: seq<Digest>, schedule: seq<(nat, bool)>) returns (i: nat)
    requires BlobsAddressed(repo) && lim.Valid() && lim.permits > |Inner(repo, roots)|
    requires var s := Exec(repo, lim, Init(roots), schedule);
             !Finished(roots, s) && forall j :: 0 <= j < |s.tasks| ==> !s.tasks[j].phase.Failed?
    ensures var s := Exec(repo, lim, Init(roots), schedule); Step(repo, lim, s, i, true) != s
  {
    assert ParentsWait(Init(roots));
    hide Inv, Exec, Inner, Step, ParentsWait, Finished;
    var s := Exec(repo, lim, Init(roots), schedule);
    InitInv(repo, roots);
    ExecKeepsInv(repo, lim, roots, Init(roots), schedule);
    ExecKeepsWaiting(repo, lim, Init(roots), schedule);
    OpenWithinInner(repo, roots, s);
    i := SomeTaskMoves(repo, lim, roots, s);
  }

  // ----- A bound on the steps of every run -----

  /** The steps that the calls of an object may still need, all the way down. */
  ghost function BodyWeight(repo: Repo, rank: Digest -> nat, d: Digest): nat
    decreases rank(d) + 1, 0
  {
    if d in repo.objects then TodoWeight(repo, rank, rank(d), Items(repo.objects[d])) else 0
  }

  ghost function TodoWeight(repo: Repo, rank: Digest -> nat, bound: nat, todo: seq<Item>): nat
    decreases bound, |todo|
  {
    if todo == [] then 0
    else
      1 + (if todo[0].Call? && rank(todo[0].digest) < bound then 4 + BodyWeight(repo, rank, todo[0].digest) else 0) +
      TodoWeight(repo, rank, bound, todo[1..])
  }

  ghost function Weight(repo: Repo, rank: Digest -> nat, t: Task): nat {
    match t.phase
    case Start => 4 + BodyWeight(repo, rank, t.digest)
    case Loading => 3 + BodyWeight(repo, rank, t.digest)
    case Waiting(_, todo, _) => 2 + TodoWeight(repo, rank, rank(t.digest), todo)
    case Done(_) => 1
    case Delivered => 0
    case Failed => 0
  }

  ghost function Total(repo: Repo, rank: Digest -> nat, tasks: seq<Task>): nat {
    if tasks == [] then 0
    else Total(repo, rank, tasks[..|tasks| - 1]) + Weight(repo, rank, tasks[|tasks| - 1])
  }

  lemma {:induction false} TotalOfUpdate(repo: Repo, rank: Digest -> nat, tasks: seq<Task>, i: nat, t: Task)
    requires i < |tasks|
    ensures Total(repo, rank, tasks[i := t])
            == Total(repo, rank, tasks) - Weight(repo, rank, tasks[i]) + Weight(repo, rank, t)
  {
    hide Weight;
    var init := tasks[..|tasks| - 1];
    if i < |tasks| - 1 {
      assert tasks[i := t][..|tasks| - 1] == init[i := t];
      TotalOfUpdate(repo, rank, init, i, t);
    } else {
      assert tasks[i := t][..|tasks| - 1] == init;
    }
  }

  lemma TotalOfAppend(repo: Repo, rank: Digest -> nat, tasks: seq<Task>, t: Task)
    ensures Total(repo, rank, tasks + [t]) == Total(repo, rank, tasks) + Weight(repo, rank, t)
  {
    hide Weight;
    assert (tasks + [t])[..|tasks|] == tasks;
  }

  lemma MoveDecreases(repo: Repo, lim: Limits, rank: Digest -> nat, s: State, i: nat, ok: bool)
    requires i < |s.tasks| && (s.tasks[i].phase.Start? || s.tasks[i].phase.Loading?) && Step(repo, lim, s, i, ok) != s
    ensures Total(repo, rank, Step(repo, lim, s, i, ok).tasks) < Total(repo, rank, s.tasks)
  {
    hide Open, Items, TodoWeight, Total;
    TotalOfUpdate(repo, rank, s.tasks, i, Step(repo, lim, s, i, ok).tasks[i]);
  }

  lemma WaitingDecreases(repo: Repo, rank: Digest -> nat, s: State, i: nat)
    requires Ranked(repo.objects, rank) && i < |s.tasks| && s.tasks[i].phase.Waiting? && TaskOk(repo, s, s.tasks[i])
    requires StepWaiting(s, i) != s
    ensures Total(repo, rank, StepWaiting(s, i).tasks) < Total(repo, rank, s.tasks)
  {
    var t, s' := s.tasks[i], StepWaiting(s, i);
    var todo := t.phase.todo;
    if todo != [] && todo[0].Call? {
      assert todo[0] in Items(t.phase.obj);
      assert Edge(repo.objects, t.digest, todo[0].digest);
    }
    hide Items, Reports, Ranked, OfAll, TaskOk, BodyWeight, Total;
    TotalOfUpdate(repo, rank, s.tasks, i, s'.tasks[i]);
    if todo != [] && todo[0].Call? {
      TotalOfAppend(repo, rank, s.tasks[i := s'.tasks[i]], s'.tasks[|s.tasks|]);
      assert s'.tasks == s.tasks[i := s'.tasks[i]] + [s'.tasks[|s.tasks|]];
    }
  }

  lemma DoneDecreases(repo: Repo, rank: Digest -> nat, s: State, i: nat)
    requires i < |s.tasks| && s.tasks[i].phase.Done? && StepDone(s, i) != s
    ensures Total(repo, rank, StepDone(s, i).tasks) < Total(repo, rank, s.tasks)
  {
    var s', p := StepDone(s, i), s.tasks[i].parent.value;
    hide Total, TodoWeight;
    var given := s.tasks[i := s.tasks[i].(phase := Delivered, owned := {})];
    TotalOfUpdate(repo, rank, s.tasks, i, given[i]);
    TotalOfUpdate(repo, rank, given, p, s'.tasks[p]);
    assert s'.tasks == given[p := s'.tasks[p]];
  }

  /** On an acyclic graph every step that does something lowers the total work left. */
  lemma StepDecreases(repo: Repo, lim: Limits, rank: Digest -> nat, roots: seq<Digest>, s: State, i: nat, ok: bool)
    requires Inv(repo, roots, s) && Ranked(repo.objects, rank) && Step(repo, lim, s, i, ok) != s
    ensures Total(repo, rank, Step(repo, lim, s, i, ok).tasks) < Total(repo, rank, s.tasks)
  {
    assert TaskOk(repo, s, s.tasks[i]);
    hide Inv, TaskOk, Total, Ranked, Open, StepWaiting, StepDone, StepLoading, StepStart;
    match s.tasks[i].phase
    case Start => MoveDecreases(repo, lim, rank, s, i, ok);
    case Loading => MoveDecreases(repo, lim, rank, s, i, ok);
    case Waiting(_, _, _) => WaitingDecreases(repo, rank, s, i);
    case Done(_) => DoneDecreases(repo, rank, s, i);
  }

  // ----- Nothing fails unless a read does -----

  /** Annotations refer to blobs; a check that meets anything else there ends in an error. */
  ghost predicate AnnotationsAreBlobs(repo: Repo) {
    forall d, a :: d in repo.objects && repo.objects[d].Layer? && BlobRef(a) in repo.objects[d].annotations ==>
      Leaf(repo, a)
  }

  predicate Leaf(repo: Repo, d: Digest) {
    d in repo.objects ==> repo.objects[d].Blob?
  }

  /** A call is for a child of the caller's object, and one for an annotation can be used as such. */
  ghost predicate CalledWell(repo: Repo, s: State, k: nat)
    requires k < |s.tasks|
  {
    var t := s.tasks[k];
    && (t.parent.Some? ==> t.parent.value < |s.tasks| && Edge(repo.objects, s.tasks[t.parent.value].digest, t.digest))
    && (t.annotation ==>
          Leaf(repo, t.digest) && !t.phase.Waiting? && (t.phase.Done? ==> AsAnnotation(t.phase.result).Some?))
  }

  ghost predicate CallsAreGood(repo: Repo, s: State) {
    forall k :: 0 <= k < |s.tasks| ==> CalledWell(repo, s, k)
  }

  lemma {:induction false} DigestsAreNoAnnotations(digests: seq<Digest>, x: Item)
    requires x in DigestItems(digests)
    ensures x.Call? && !x.annotation
  {
    if x != DigestItems(digests)[0] {
      DigestsAreNoAnnotations(digests[1..], x);
    }
  }

  lemma AnnotationItemIsLeaf(repo: Repo, d: Digest, x: Item)
    requires AnnotationsAreBlobs(repo) && d in repo.objects && x in Items(repo.objects[d]) && x.Call? && x.annotation
    ensures Leaf(repo, x.digest)
  {
    match repo.objects[d]
    case Platform(stack) =>
      DigestsAreNoAnnotations(stack, x);
    case Manifest(entries) =>
      DigestsAreNoAnnotations(EntryBlobs(entries), x);
    case Layer(_, _) =>
      assert BlobRef(x.digest) in repo.objects[d].annotations;
  }

  lemma MovedCallIsGood(repo: Repo, lim: Limits, s: State, i: nat, ok: bool)
    requires i < |s.tasks| && CalledWell(repo, s, i)
    ensures var s' := Step(repo, lim, s, i, ok);
            && i < |s'.tasks| && s'.tasks[i].digest == s.tasks[i].digest && s'.tasks[i].parent == s.tasks[i].parent
            && s'.tasks[i].annotation == s.tasks[i].annotation
            && (s'.tasks[i].annotation ==>
                  && !s'.tasks[i].phase.Waiting?
                  && (s'.tasks[i].phase.Done? ==> AsAnnotation(s'.tasks[i].phase.result).Some?))
  {
    hide Items, Open;
  }

  lemma OtherCallIsGood(repo: Repo, lim: Limits, s: State, i: nat, ok: bool, k: nat)
    requires i < |s.tasks| && k < |s.tasks| && k != i && CalledWell(repo, s, k)
    ensures var s' := Step(repo, lim, s, i, ok);
            && k < |s'.tasks| && s'.tasks[k].digest == s.tasks[k].digest && s'.tasks[k].parent == s.tasks[k].parent
            && s'.tasks[k].annotation == s.tasks[k].annotation
            && (s'.tasks[k].annotation ==>
                  && !s'.tasks[k].phase.Waiting?
                  && (s'.tasks[k].phase.Done? ==> AsAnnotation(s'.tasks[k].phase.result).Some?))
  {
    hide Items, Open;
  }

  lemma NewCallIsGood(repo: Repo, lim: Limits, s: State, i: nat, ok: bool)
    requires AnnotationsAreBlobs(repo) && i < |s.tasks| && TaskOk(repo, s, s.tasks[i])
    requires |Step(repo, lim, s, i, ok).tasks| > |s.tasks|
    ensures var t := Step(repo, lim, s, i, ok).tasks[|s.tasks|];
            && t.parent == Some(i) && Edge(repo.objects, s.tasks[i].digest, t.digest) && t.phase.Start?
            && (t.annotation ==> Leaf(repo, t.digest))
            && |Step(repo, lim, s, i, ok).tasks| == |s.tasks| + 1
  {
    hide Open, Reports, OfAll, AnnotationsAreBlobs;
    var item := s.tasks[i].phase.todo[0];
    assert item in Items(repo.objects[s.tasks[i].digest]);
    if item.annotation {
      AnnotationItemIsLeaf(repo, s.tasks[i].digest, item);
    }
  }

  /** Neither what a task was asked nor who asked it ever changes. */
  lemma CallStays(repo: Repo, lim: Limits, s: State, i: nat, ok: bool, k: nat)
    requires k < |s.tasks|
    ensures var s' := Step(repo, lim, s, i, ok);
            k < |s'.tasks| && s'.tasks[k].digest == s.tasks[k].digest && s'.tasks[k].parent == s.tasks[k].parent
  {
    hide Items, Open;
  }

  lemma OldCallIsGood(repo: Repo, lim: Limits, s: State, i: nat, ok: bool, k: nat)
    requires i < |s.tasks| && k < |s.tasks| && CalledWell(repo, s, k)
    ensures k < |Step(repo, lim, s, i, ok).tasks| && CalledWell(repo, Step(repo, lim, s, i, ok), k)
  {
    hide Step, Edge, Leaf, AsAnnotation;
    if k == i {
      MovedCallIsGood(repo, lim, s, i, ok);
    } else {
      OtherCallIsGood(repo, lim, s, i, ok, k);
    }
    if s.tasks[k].parent.Some? {
      CallStays(repo, lim, s, i, ok, s.tasks[k].parent.value);
    }
  }

  lemma AnyCallIsGood(repo: Repo, lim: Limits, s: State, i: nat, ok: bool, k: nat)
    requires AnnotationsAreBlobs(repo) && CallsAreGood(repo, s) && i < |s.tasks| && TaskOk(repo, s, s.tasks[i])
    requires k < |Step(repo, lim, s, i, ok).tasks|
    ensures CalledWell(repo, Step(repo, lim, s, i, ok), k)
  {
    hide Step, TaskOk, Edge, AnnotationsAreBlobs, AsAnnotation, Leaf;
    if k < |s.tasks| {
      assert CalledWell(repo, s, k);
      OldCallIsGood(repo, lim, s, i, ok, k);
    } else {
      hide CallsAreGood;
      CallStays(repo, lim, s, i, ok, i);
      NewCallIsGood(repo, lim, s, i, ok);
    }
  }

  lemma StepKeepsCallsGood(repo: Repo, lim: Limits, roots: seq<Digest>, s: State, i: nat, ok: bool)
    requires AnnotationsAreBlobs(repo) && Inv(repo, roots, s) && CallsAreGood(repo, s) && i < |s.tasks|
    ensures CallsAreGood(repo, Step(repo, lim, s, i, ok))
  {
    assert TaskOk(repo, s, s.tasks[i]);
    var s' := Step(repo, lim, s, i, ok);
    hide Step, Inv, TaskOk, AnnotationsAreBlobs, CalledWell;
    forall k | 0 <= k < |s'.tasks|
      ensures CalledWell(repo, s', k)
    {
      AnyCallIsGood(repo, lim, s, i, ok, k);
    }
  }

  predicate NoneFailed(s: State) {
    forall i :: 0 <= i < |s.tasks| ==> !s.tasks[i].phase.Failed?
  }

  lemma NoStepFails(repo: Repo, lim: Limits, s: State, i: nat)
    requires CallsAreGood(repo, s) && NoneFailed(s)
    ensures NoneFailed(Step(repo, lim, s, i, true))
  {
    hide Items, Open, Edge;
    if i < |s.tasks| {
      assert CalledWell(repo, s, i);
    }
  }

  // ----- Where a check can block -----

  /**
    Objects that can be open at once, each waiting for a child of its own: every one of them is a head
    or a child of another, and no two wait for the same.
   */
  ghost predicate CanBeOpen(repo: Repo, heads: set<Digest>, open: set<Digest>, next: map<Digest, Digest>) {
    && open <= next.Keys
    && (forall d :: d in open ==> Edge(repo.objects, d, next[d]))
    && (forall d, e :: d in open && e in open && d != e ==> next[d] != next[e])
    && (forall d :: d in open ==> Called(repo, heads, open, d))
  }

  ghost predicate Called(repo: Repo, heads: set<Digest>, open: set<Digest>, d: Digest) {
    d in heads || exists p :: p in open && Edge(repo.objects, p, d)
  }

  /** No task can move. */
  predicate Stuck(repo: Repo, lim: Limits, s: State) {
    forall i :: 0 <= i < |s.tasks| ==> Step(repo, lim, s, i, true) == s
  }

  /** The task waits for one that is open or waits for a permit. */
  predicate Awaits(s: State, i: nat, k: nat) {
    k < |s.tasks| && s.tasks[k].parent == Some(i) && (s.tasks[k].phase.Loading? || s.tasks[k].phase.Waiting?)
  }

  lemma StuckAwaits(repo: Repo, lim: Limits, s: State, i: nat) returns (k: nat)
    requires Stuck(repo, lim, s) && NoneFailed(s) && i < |s.tasks| && s.tasks[i].phase.Waiting?
    requires forall k :: 0 <= k < |s.tasks| && s.tasks[k].parent == Some(i) ==> i < k
    ensures Awaits(s, i, k)
  {
    hide Items, Open;
    assert Step(repo, lim, s, i, true) == s;
    k :| 0 <= k < |s.tasks| && s.tasks[k].parent == Some(i) && !s.tasks[k].phase.Delivered?;
    assert Step(repo, lim, s, k, true) == s;
  }

  /** A digest is being worked on by one task only. */
  lemma OneTaskEach(repo: Repo, roots: seq<Digest>, s: State, i: nat, j: nat)
    requires Inv(repo, roots, s) && i < |s.tasks| && j < |s.tasks| && s.tasks[i].digest == s.tasks[j].digest
    requires s.tasks[i].phase.Loading? || s.tasks[i].phase.Waiting?
    requires s.tasks[j].phase.Loading? || s.tasks[j].phase.Waiting?
    ensures i == j
  {
    hide Reports, Coverage, Shape, Items, OfAll;
    assert TaskOk(repo, s, s.tasks[i]) && TaskOk(repo, s, s.tasks[j]);
  }

  ghost predicate OpenTask(s: State, d: Digest, i: nat) {
    i < |s.tasks| && s.tasks[i].phase.Waiting? && s.tasks[i].digest == d
  }

  ghost predicate NextOf(s: State, d: Digest, c: Digest) {
    exists i: nat, k: nat :: OpenTask(s, d, i) && Awaits(s, i, k) && s.tasks[k].digest == c
  }

  lemma NextIsUnique(repo: Repo, roots: seq<Digest>, s: State, d: Digest, e: Digest, c: Digest)
    requires Inv(repo, roots, s) && NextOf(s, d, c) && NextOf(s, e, c)
    ensures d == e
  {
    hide Inv;
    var i: nat, k: nat :| OpenTask(s, d, i) && Awaits(s, i, k) && s.tasks[k].digest == c;
    var j: nat, l: nat :| OpenTask(s, e, j) && Awaits(s, j, l) && s.tasks[l].digest == c;
    OneTaskEach(repo, roots, s, k, l);
  }

  lemma OpenHasNext(repo: Repo, lim: Limits, roots: seq<Digest>, s: State, d: Digest) returns (c: Digest)
    requires Inv(repo, roots, s) && Stuck(repo, lim, s) && NoneFailed(s) && d in OpenDigests(s.tasks)
    ensures NextOf(s, d, c)
  {
    hide Ownership, Coverage, TaskOk, Reachable, Stuck, OpenDigests;
    OpenDigestsMeans(s.tasks, d);
    var i :| 0 <= i < |s.tasks| && s.tasks[i].phase.Waiting? && s.tasks[i].digest == d;
    var k := StuckAwaits(repo, lim, s, i);
    c := s.tasks[k].digest;
    assert OpenTask(s, d, i);
  }

  lemma NextIsChild(repo: Repo, s: State, d: Digest, c: Digest)
    requires CallsAreGood(repo, s) && NextOf(s, d, c)
    ensures Edge(repo.objects, d, c)
  {
    var i: nat, k: nat :| OpenTask(s, d, i) && Awaits(s, i, k) && s.tasks[k].digest == c;
    assert CalledWell(repo, s, k);
  }

  /** The digests of the roots in flight. */
  ghost function Heads(tasks: seq<Task>): set<Digest> {
    if tasks == [] then {}
    else
      var last := tasks[|tasks| - 1];
      Heads(tasks[..|tasks| - 1]) + if InFlight(last) then {last.digest} else {}
  }

  lemma {:induction false} HeadsMeans(tasks: seq<Task>, d: Digest)
    ensures d in Heads(tasks) <==> exists i :: 0 <= i < |tasks| && InFlight(tasks[i]) && tasks[i].digest == d
  {
    if tasks != [] {
      HeadsMeans(tasks[..|tasks| - 1], d);
    }
  }

  lemma {:induction false} HeadsAreFew(tasks: seq<Task>)
    ensures |Heads(tasks)| <= RootsInFlight(tasks)
  {
    if tasks != [] {
      HeadsAreFew(tasks[..|tasks| - 1]);
    }
  }

  lemma HeadsAreRoots(repo: Repo, roots: seq<Digest>, s: State)
    requires Shape(repo, roots, s)
    ensures Heads(s.tasks) <= RootSet(roots)
  {
    hide Reachable, Heads;
    forall d | d in Heads(s.tasks)
      ensures d in RootSet(roots)
    {
      HeadsMeans(s.tasks, d);
    }
  }

  lemma OpenIsCalled(repo: Repo, roots: seq<Digest>, s: State, d: Digest)
    requires Inv(repo, roots, s) && ParentsWait(s) && CallsAreGood(repo, s) && NoneFailed(s)
             && d in OpenDigests(s.tasks)
    ensures Called(repo, Heads(s.tasks), OpenDigests(s.tasks), d)
  {
    hide Ownership, Coverage, TaskOk, Reachable, OpenDigests, Edge, AsAnnotation, Heads;
    OpenDigestsMeans(s.tasks, d);
    var i :| 0 <= i < |s.tasks| && s.tasks[i].phase.Waiting? && s.tasks[i].digest == d;
    assert ParentWaits(s, i) && CalledWell(repo, s, i);
    if i < |roots| {
      HeadsMeans(s.tasks, d);
    } else {
      var p := s.tasks[i].parent.value;
      OpenDigestsMeans(s.tasks, s.tasks[p].digest);
    }
  }

  /**
    If no task can move before the check is finished, all permits are with objects that wait for each
    other below the roots in flight.
   */
  lemma StuckIsOpen(repo: Repo, lim: Limits, roots: seq<Digest>, s: State)
    returns (open: set<Digest>, next: map<Digest, Digest>)
    requires Inv(repo, roots, s) && ParentsWait(s) && CallsAreGood(repo, s) && lim.Valid()
    requires NoneFailed(s) && !Finished(roots, s) && Stuck(repo, lim, s)
    ensures CanBeOpen(repo, Heads(s.tasks), open, next) && |open| >= lim.permits
  {
    hide Inv, ParentsWait, CallsAreGood, OpenDigests, Open, NextOf, DistinctOpen, Edge, Called, Finished, Step, Heads;
    open := OpenDigests(s.tasks);
    forall d | d in open
      ensures (exists c :: NextOf(s, d, c)) && Called(repo, Heads(s.tasks), open, d)
    {
      var c := OpenHasNext(repo, lim, roots, s, d);
      OpenIsCalled(repo, roots, s, d);
    }
    next := map d | d in open :: var c :| NextOf(s, d, c); c;
    forall d | d in open
      ensures Edge(repo.objects, d, next[d]) && NextOf(s, d, next[d])
    {
      NextIsChild(repo, s, d, next[d]);
    }
    forall d, e | d in open && e in open && d != e
      ensures next[d] != next[e]
    {
      if next[d] == next[e] {
        NextIsUnique(repo, roots, s, d, e, next[d]);
      }
    }
    OpenIsDistinct(repo, roots, s);
    OpenIsCounted(s.tasks);
    if Open(s.tasks) < lim.permits {
      var i := SomeTaskMoves(repo, lim, roots, s);
      assert Step(repo, lim, s, i, true) != s;
      MovingTaskExists(repo, lim, s, i);
    }
  }

  lemma MovingTaskExists(repo: Repo, lim: Limits, s: State, i: nat)
    requires Step(repo, lim, s, i, true) != s
    ensures i < |s.tasks|
  {
  }

  // ----- The roots in flight -----

  lemma {:induction false} FlightOfUpdate(tasks: seq<Task>, i: nat, t: Task)
    requires i < |tasks|
    ensures RootsInFlight(tasks[i := t])
            == RootsInFlight(tasks) - (if InFlight(tasks[i]) then 1 else 0) + (if InFlight(t) then 1 else 0)
  {
    hide InFlight;
    var init := tasks[..|tasks| - 1];
    if i < |tasks| - 1 {
      assert tasks[i := t][..|tasks| - 1] == init[i := t];
      FlightOfUpdate(init, i, t);
    } else {
      assert tasks[i := t][..|tasks| - 1] == init;
    }
  }

  lemma FlightOfAppend(tasks: seq<Task>, t: Task)
    ensures RootsInFlight(tasks + [t]) == RootsInFlight(tasks) + if InFlight(t) then 1 else 0
  {
    assert (tasks + [t])[..|tasks|] == tasks;
  }

  lemma StartKeepsFlight(lim: Limits, s: State, i: nat)
    requires lim.Valid() && RootsInFlight(s.tasks) <= lim.roots
    requires i < |s.tasks| && s.tasks[i].phase.Start? && Admitted(lim, s.tasks, i)
    ensures RootsInFlight(StepStart(s, i).tasks) <= lim.roots
  {
    FlightOfUpdate(s.tasks, i, StepStart(s, i).tasks[i]);
    hide RootsInFlight;
  }

  lemma LoadingKeepsFlight(repo: Repo, lim: Limits, s: State, i: nat, ok: bool)
    requires i < |s.tasks| && s.tasks[i].phase.Loading?
    ensures RootsInFlight(Step(repo, lim, s, i, ok).tasks) <= RootsInFlight(s.tasks)
  {
    hide RootsInFlight, Open, Items;
    FlightOfUpdate(s.tasks, i, Step(repo, lim, s, i, ok).tasks[i]);
  }

  lemma WaitingKeepsFlight(s: State, i: nat)
    requires i < |s.tasks| && s.tasks[i].phase.Waiting?
    ensures RootsInFlight(StepWaiting(s, i).tasks) <= RootsInFlight(s.tasks)
  {
    hide RootsInFlight;
    var s' := StepWaiting(s, i);
    FlightOfUpdate(s.tasks, i, s'.tasks[i]);
    if |s'.tasks| > |s.tasks| {
      FlightOfAppend(s.tasks[i := s'.tasks[i]], s'.tasks[|s.tasks|]);
      assert s'.tasks == s.tasks[i := s'.tasks[i]] + [s'.tasks[|s.tasks|]];
    } else {
      assert s'.tasks == s.tasks[i := s'.tasks[i]];
    }
  }

  lemma DoneKeepsFlight(s: State, i: nat)
    requires i < |s.tasks| && s.tasks[i].phase.Done?
    ensures RootsInFlight(StepDone(s, i).tasks) <= RootsInFlight(s.tasks)
  {
    hide RootsInFlight;
    var s' := StepDone(s, i);
    if s' != s {
      var p := s.tasks[i].parent.value;
      var given := s.tasks[i := s.tasks[i].(phase := Delivered, owned := {})];
      FlightOfUpdate(s.tasks, i, given[i]);
      FlightOfUpdate(given, p, s'.tasks[p]);
      assert s'.tasks == given[p := s'.tasks[p]];
    }
  }

  /** No more roots are ever in flight than allowed. */
  lemma StepKeepsFlight(repo: Repo, lim: Limits, s: State, i: nat, ok: bool)
    requires lim.Valid() && RootsInFlight(s.tasks) <= lim.roots
    ensures RootsInFlight(Step(repo, lim, s, i, ok).tasks) <= lim.roots
  {
    hide RootsInFlight, Open, StepStart, StepLoading, StepWaiting, StepDone;
    if i < |s.tasks| {
      match s.tasks[i].phase
      case Start =>
        if Admitted(lim, s.tasks, i) {
          StartKeepsFlight(lim, s, i);
        }
      case Loading => LoadingKeepsFlight(repo, lim, s, i, ok);
      case Waiting(_, _, _) => WaitingKeepsFlight(s, i);
      case Done(_) => DoneKeepsFlight(s, i);
      case Delivered =>
      case Failed =>
    }
  }

  // ----- Enough permits -----

  /** All that holds of a run in which nothing has failed. */
  ghost predicate Going(repo: Repo, lim: Limits, roots: seq<Digest>, s: State) {
    && Inv(repo, roots, s) && ParentsWait(s) && CallsAreGood(repo, s) && NoneFailed(s)
    && RootsInFlight(s.tasks) <= lim.roots
  }

  /** Fewer objects than there are permits can be open at once below as many roots as can be in flight. */
  ghost predicate AlwaysEnough(repo: Repo, lim: Limits, roots: seq<Digest>) {
    forall heads, open, next ::
      heads <= RootSet(roots) && |heads| <= lim.roots && CanBeOpen(repo, heads, open, next) ==> |open| < lim.permits
  }

  lemma StepKeepsGoing(repo: Repo, lim: Limits, roots: seq<Digest>, s: State, i: nat)
    requires BlobsAddressed(repo) && AnnotationsAreBlobs(repo) && lim.Valid()
    requires Going(repo, lim, roots, s) && i < |s.tasks|
    ensures Going(repo, lim, roots, Step(repo, lim, s, i, true))
  {
    hide Inv, ParentsWait, CallsAreGood, NoneFailed, Step, RootsInFlight;
    StepKeepsInv(repo, lim, roots, s, i, true);
    StepKeepsWaiting(repo, lim, s, i, true);
    StepKeepsCallsGood(repo, lim, roots, s, i, true);
    StepKeepsFlight(repo, lim, s, i, true);
    NoStepFails(repo, lim, s, i);
  }

  /** With enough permits no run in which nothing has failed is stuck before the end. */
  lemma NotStuck(repo: Repo, lim: Limits, roots: seq<Digest>, s: State)
    requires lim.Valid() && Going(repo, lim, roots, s) && AlwaysEnough(repo, lim, roots) && !Finished(roots, s)
    ensures !Stuck(repo, lim, s)
  {
    hide CanBeOpen, ParentsWait, CallsAreGood, NoneFailed, Heads, RootsInFlight, Stuck, RootSet, Finished, Ownership,
         Coverage, TaskOk;
    if Stuck(repo, lim, s) {
      var open, next := StuckIsOpen(repo, lim, roots, s);
      HeadsAreFew(s.tasks);
      HeadsAreRoots(repo, roots, s);
      assert false;
    }
  }

  /** With enough permits any run in which nothing has failed can be finished. */
  lemma {:induction false} RunsToTheEnd(repo: Repo, lim: Limits, rank: Digest -> nat, roots: seq<Digest>, s: State)
    returns (more: seq<(nat, bool)>)
    requires BlobsAddressed(repo) && AnnotationsAreBlobs(repo) && Ranked(repo.objects, rank) && lim.Valid()
    requires Going(repo, lim, roots, s) && AlwaysEnough(repo, lim, roots)
    ensures Finished(roots, Exec(repo, lim, s, more))
    decreases Total(repo, rank, s.tasks)
  {
    hide Finished, Step, Total, Ranked, AnnotationsAreBlobs, BlobsAddressed, Inv, AlwaysEnough, RootsInFlight;
    if Finished(roots, s) {
      more := [];
    } else {
      NotStuck(repo, lim, roots, s);
      var i :| 0 <= i < |s.tasks| && Step(repo, lim, s, i, true) != s;
      StepDecreases(repo, lim, rank, roots, s, i, true);
      StepKeepsGoing(repo, lim, roots, s, i);
      hide Going, Stuck;
      var rest := RunsToTheEnd(repo, lim, rank, roots, Step(repo, lim, s, i, true));
      more := [(i, true)] + rest;
      assert more[1..] == rest;
    }
  }
}
