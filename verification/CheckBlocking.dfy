/**
  How a check blocks for ever: as many objects as there are permits are open below the roots in flight,
  each waiting for a child of its own.
 */
module CheckBlocking {
  import opened Graph
  import opened Check
  import opened CheckProgress
  import opened Trading

  // ----- Open objects that wait for each other are never closed -----

  predicate AnyFailed(s: State) {
    exists i :: 0 <= i < |s.tasks| && s.tasks[i].phase.Failed?
  }

  /** Each of the objects is open in a task of its own. */
  predicate AtOpen(s: State, open: set<Digest>, at: map<Digest, nat>) {
    forall d :: d in open ==>
      d in at && at[d] < |s.tasks| && s.tasks[at[d]].phase.Waiting? && s.tasks[at[d]].digest == d
  }

  /** Task `i` waits for one of the open objects, or for a task that waits for a permit. */
  predicate Held(s: State, open: set<Digest>, at: map<Digest, nat>, i: nat) {
    exists k :: 0 <= k < |s.tasks| && s.tasks[k].parent == Some(i) && Holding(s, open, at, k)
  }

  predicate Holding(s: State, open: set<Digest>, at: map<Digest, nat>, k: nat)
    requires k < |s.tasks|
  {
    s.tasks[k].phase.Loading? || (s.tasks[k].digest in open && s.tasks[k].digest in at && at[s.tasks[k].digest] == k)
  }

  predicate Blocked(s: State, open: set<Digest>, at: map<Digest, nat>) {
    AtOpen(s, open, at) && forall d :: d in open ==> Held(s, open, at, at[d])
  }

  /** Each open object holds a permit. */
  lemma {:induction false} ManyOpen(s: State, open: set<Digest>, at: map<Digest, nat>)
    requires AtOpen(s, open, at)
    ensures Open(s.tasks) >= |open|
    decreases |s.tasks|
  {
    if s.tasks == [] {
      assert open == {};
    } else {
      var last := s.tasks[|s.tasks| - 1];
      var before := s.(tasks := s.tasks[..|s.tasks| - 1]);
      if last.digest in open && at[last.digest] == |s.tasks| - 1 {
        ManyOpen(before, open - {last.digest}, at);
      } else {
        ManyOpen(before, open, at);
      }
    }
  }

  lemma WaitingStays(repo: Repo, lim: Limits, s: State, i: nat, ok: bool, t: nat)
    requires t < |s.tasks| && s.tasks[t].phase.Waiting? && !CallsFinished(s, t)
    ensures var s' := Step(repo, lim, s, i, ok);
            t < |s'.tasks| && (s'.tasks[t].phase.Waiting? || s'.tasks[t].phase.Failed?)
  {
    hide Open, Items;
  }

  lemma LoadingStays(repo: Repo, lim: Limits, s: State, i: nat, ok: bool, t: nat)
    requires t < |s.tasks| && s.tasks[t].phase.Loading? && Open(s.tasks) >= lim.permits
    ensures var s' := Step(repo, lim, s, i, ok); t < |s'.tasks| && s'.tasks[t] == s.tasks[t]
  {
    hide Open, Items;
  }

  lemma HeldIsUnfinished(s: State, open: set<Digest>, at: map<Digest, nat>, d: Digest)
    requires Blocked(s, open, at) && d in open
    ensures !CallsFinished(s, at[d])
  {
    assert Held(s, open, at, at[d]);
  }

  lemma StaysHeld(repo: Repo, lim: Limits, s: State, open: set<Digest>, at: map<Digest, nat>, i: nat, ok: bool,
                  d: Digest)
    requires Blocked(s, open, at) && lim.permits <= |open| && d in open
    ensures Held(Step(repo, lim, s, i, ok), open, at, at[d])
  {
    ManyOpen(s, open, at);
    hide Step, Open;
    assert Held(s, open, at, at[d]);
    var k :| 0 <= k < |s.tasks| && s.tasks[k].parent == Some(at[d]) && Holding(s, open, at, k);
    CallStays(repo, lim, s, i, ok, k);
    if s.tasks[k].phase.Loading? {
      LoadingStays(repo, lim, s, i, ok, k);
    }
    assert Holding(Step(repo, lim, s, i, ok), open, at, k);
  }

  lemma StaysBlocked(repo: Repo, lim: Limits, s: State, open: set<Digest>, at: map<Digest, nat>, i: nat, ok: bool)
    requires Blocked(s, open, at) && lim.permits <= |open|
    ensures var s' := Step(repo, lim, s, i, ok); Blocked(s', open, at) || AnyFailed(s')
  {
    var s' := Step(repo, lim, s, i, ok);
    if !AnyFailed(s') {
      hide Step, Held;
      forall d | d in open
        ensures at[d] < |s'.tasks| && s'.tasks[at[d]].phase.Waiting? && s'.tasks[at[d]].digest == d
                && Held(s', open, at, at[d])
      {
        HeldIsUnfinished(s, open, at, d);
        WaitingStays(repo, lim, s, i, ok, at[d]);
        CallStays(repo, lim, s, i, ok, at[d]);
        StaysHeld(repo, lim, s, open, at, i, ok, d);
      }
    }
  }

  lemma FailureStays(repo: Repo, lim: Limits, s: State, i: nat, ok: bool)
    requires AnyFailed(s)
    ensures AnyFailed(Step(repo, lim, s, i, ok))
  {
    hide Open, Items;
    var t :| 0 <= t < |s.tasks| && s.tasks[t].phase.Failed?;
    assert Step(repo, lim, s, i, ok).tasks[t].phase.Failed?;
  }

  /** Objects that are as many as there are permits and wait for each other are never closed. */
  lemma {:induction false} NeverFinishes(repo: Repo, lim: Limits, roots: seq<Digest>, s: State, open: set<Digest>,
                                         at: map<Digest, nat>, schedule: seq<(nat, bool)>)
    requires (Blocked(s, open, at) && open != {} && lim.permits <= |open|) || AnyFailed(s)
    ensures !Finished(roots, Exec(repo, lim, s, schedule))
    decreases |schedule|
  {
    if schedule != [] {
      hide Blocked, AnyFailed, Step;
      var (i, ok) := schedule[0];
      if AnyFailed(s) {
        FailureStays(repo, lim, s, i, ok);
      } else {
        StaysBlocked(repo, lim, s, open, at, i, ok);
      }
      NeverFinishes(repo, lim, roots, Step(repo, lim, s, i, ok), open, at, schedule[1..]);
    } else if !AnyFailed(s) {
      var d :| d in open;
      assert s.tasks[at[d]].phase.Waiting?;
    }
  }

  // ----- Making calls -----

  function CallDigests(items: seq<Item>): (digests: seq<Digest>)
    ensures forall x :: x in items && x.Call? ==> x.digest in digests
  {
    if items == [] then []
    else (if items[0].Call? then [items[0].digest] else []) + CallDigests(items[1..])
  }

  /** What is left after the first call. */
  function AfterCall(items: seq<Item>): (rest: seq<Item>)
    ensures CallDigests(items) != [] ==>
              |rest| < |items| && CallDigests(items) == [CallDigests(items)[0]] + CallDigests(rest)
  {
    if items == [] then [] else if items[0].Call? then items[1..] else AfterCall(items[1..])
  }

  predicate WaitsWith(s: State, j: nat, obj: Object, todo: seq<Item>) {
    j < |s.tasks| && s.tasks[j].phase.Waiting? && s.tasks[j].phase.obj == obj && s.tasks[j].phase.todo == todo
  }

  /** Only task `j` moves, and it may make calls. */
  predicate OnlyMoves(s: State, s': State, j: nat) {
    && j < |s.tasks| <= |s'.tasks| && s'.tasks[j].parent == s.tasks[j].parent && s'.tasks[j].digest == s.tasks[j].digest
    && (forall k :: 0 <= k < |s.tasks| && k != j ==> s'.tasks[k] == s.tasks[k])
    && (forall k :: |s.tasks| <= k < |s'.tasks| ==> s'.tasks[k].parent == Some(j) && s'.tasks[k].phase.Start?)
  }

  /** What a waiting task does with its next item. */
  lemma NextItem(repo: Repo, lim: Limits, s: State, j: nat, obj: Object, todo: seq<Item>)
    requires WaitsWith(s, j, obj, todo) && todo != [] && (!obj.Layer? || CallsFinished(s, j))
    ensures var next := Step(repo, lim, s, j, true);
            && OnlyMoves(s, next, j) && WaitsWith(next, j, obj, todo[1..]) && next.processed == s.processed
            && if todo[0].Call? then |next.tasks| == |s.tasks| + 1 && next.tasks[|s.tasks|].digest == todo[0].digest
               else |next.tasks| == |s.tasks|
  {
    hide Items, Open;
  }

  /** Task `j` has called for `c`. */
  predicate CallMade(s: State, s': State, j: nat, obj: Object, rest: seq<Item>, c: Digest) {
    && OnlyMoves(s, s', j) && |s'.tasks| == |s.tasks| + 1 && s'.tasks[|s.tasks|].digest == c
    && WaitsWith(s', j, obj, rest) && s'.processed == s.processed
  }

  lemma ExecOne(repo: Repo, lim: Limits, s: State, i: nat)
    ensures Exec(repo, lim, s, [(i, true)]) == Step(repo, lim, s, i, true)
  {
    hide Step;
    assert [(i, true)][1..] == [];
  }

  lemma {:induction false} ExecAppend(repo: Repo, lim: Limits, s: State, a: seq<(nat, bool)>, b: seq<(nat, bool)>)
    ensures Exec(repo, lim, s, a + b) == Exec(repo, lim, Exec(repo, lim, s, a), b)
    decreases |a|
  {
    hide Step;
    if a == [] {
      assert a + b == b;
    } else {
      assert (a + b)[1..] == a[1..] + b;
      ExecAppend(repo, lim, Step(repo, lim, s, a[0].0, a[0].1), a[1..], b);
    }
  }

  lemma {:induction false} CallNext(repo: Repo, lim: Limits, s: State, j: nat, obj: Object, todo: seq<Item>)
    returns (moves: seq<(nat, bool)>)
    requires WaitsWith(s, j, obj, todo) && (!obj.Layer? || CallsFinished(s, j)) && CallDigests(todo) != []
    ensures CallMade(s, Exec(repo, lim, s, moves), j, obj, AfterCall(todo), CallDigests(todo)[0])
    decreases |todo|
  {
    NextItem(repo, lim, s, j, obj, todo);
    ExecOne(repo, lim, s, j);
    hide Step, Exec;
    moves := [(j, true)];
    if !todo[0].Call? {
      var next := Step(repo, lim, s, j, true);
      var more := CallNext(repo, lim, next, j, obj, todo[1..]);
      ExecAppend(repo, lim, s, moves, more);
      moves := moves + more;
    }
  }

  lemma {:induction false} CallAll(repo: Repo, lim: Limits, s: State, j: nat, obj: Object, todo: seq<Item>)
    returns (moves: seq<(nat, bool)>)
    requires WaitsWith(s, j, obj, todo) && !obj.Layer?
    ensures var s' := Exec(repo, lim, s, moves);
            && OnlyMoves(s, s', j) && s'.tasks[j].phase.Waiting? && s'.tasks[j].phase.obj == obj
            && s'.processed == s.processed
            && forall c :: c in CallDigests(todo) ==> CalledBy(s', j, c)
    decreases |todo|
  {
    if CallDigests(todo) == [] {
      moves := [];
    } else {
      moves := CallNext(repo, lim, s, j, obj, todo);
      hide Exec;
      var next := Exec(repo, lim, s, moves);
      var more := CallAll(repo, lim, next, j, obj, AfterCall(todo));
      ExecAppend(repo, lim, s, moves, more);
      moves := moves + more;
      var s' := Exec(repo, lim, s, moves);
      assert s'.tasks[|s.tasks|] == next.tasks[|s.tasks|];
    }
  }

  // ----- Opening objects, the higher ones first -----

  /** A layer has made its first call, which is its only one. */
  predicate OnlyCall(s: State, j: nat, obj: Object, k: nat) {
    && WaitsWith(s, j, obj, AfterCall(Items(obj))) && CallDigests(Items(obj)) != []
    && k < |s.tasks| && s.tasks[k].parent == Some(j) && s.tasks[k].digest == CallDigests(Items(obj))[0]
    && forall l :: 0 <= l < |s.tasks| && s.tasks[l].parent == Some(j) ==> l == k
  }

  /** A layer makes one call at a time; other objects have made all of theirs. */
  ghost predicate Asked(s: State, j: nat, obj: Object) {
    if obj.Layer? then exists k: nat :: OnlyCall(s, j, obj, k)
    else forall c :: c in ChildObjects(obj) ==> CalledBy(s, j, c)
  }

  /** Every other task is still to start. */
  predicate OthersStart(s: State, open: set<Digest>, at: map<Digest, nat>) {
    && (forall k :: 0 <= k < |s.tasks| && !s.tasks[k].phase.Start? ==>
          s.tasks[k].digest in open && s.tasks[k].digest in at && at[s.tasks[k].digest] == k)
    && (forall k :: 0 <= k < |s.tasks| && s.tasks[k].parent.Some? ==>
          s.tasks[k].parent.value < |s.tasks| && s.tasks[s.tasks[k].parent.value].phase.Waiting?)
  }

  /** An object that another one is to wait for has been called by that one. */
  predicate NextCalled(s: State, open: set<Digest>, next: map<Digest, Digest>, at: map<Digest, nat>)
    requires open <= next.Keys && AtOpen(s, open, at)
  {
    forall d :: d in open && next[d] in open ==> s.tasks[at[next[d]]].parent == Some(at[d])
  }

  ghost predicate OpenAsked(repo: Repo, s: State, open: set<Digest>, at: map<Digest, nat>)
    requires AtOpen(s, open, at)
  {
    forall d :: d in open ==>
      d in repo.objects && s.tasks[at[d]].phase.obj == repo.objects[d] && Asked(s, at[d], repo.objects[d])
  }

  /** Only roots that are heads have been taken up. */
  predicate RootsThere(roots: seq<Digest>, heads: set<Digest>, s: State) {
    && |roots| <= |s.tasks|
    && (forall i :: 0 <= i < |roots| ==> s.tasks[i].digest == roots[i] && s.tasks[i].parent.None?)
    && (forall k :: 0 <= k < |s.tasks| && s.tasks[k].parent.None? && !s.tasks[k].phase.Start? ==>
          s.tasks[k].digest in heads)
  }

  /** The root can be taken up whenever fewer than allowed are in flight. */
  ghost predicate Startable(lim: Limits, i: nat) {
    forall tasks :: WaitingRoot(tasks, i) && RootsInFlight(tasks) < lim.roots ==> lim.admits(tasks, i)
  }

  /** All the heads can be in flight at once. */
  ghost predicate CanStart(lim: Limits, roots: seq<Digest>, heads: set<Digest>) {
    |heads| <= lim.roots && forall h :: h in heads ==> StartableAs(lim, roots, h)
  }

  ghost predicate StartableAs(lim: Limits, roots: seq<Digest>, h: Digest) {
    exists i :: 0 <= i < |roots| && roots[i] == h && Startable(lim, i)
  }

  /** Exactly these objects have been opened, and nothing else has been started. */
  ghost predicate Opened(repo: Repo, roots: seq<Digest>, heads: set<Digest>, s: State, open: set<Digest>,
                         next: map<Digest, Digest>, at: map<Digest, nat>) {
    && open <= next.Keys && AtOpen(s, open, at) && OthersStart(s, open, at) && NextCalled(s, open, next, at)
    && OpenAsked(repo, s, open, at) && RootsThere(roots, heads, s) && s.processed.Keys == open
  }

  lemma ChildIsCalled(repo: Repo, d: Digest, c: Digest)
    requires Edge(repo.objects, d, c)
    ensures c in CallDigests(Items(repo.objects[d]))
  {
    var items := Items(repo.objects[d]);
    assert Call(c, false) in items || Call(c, true) in items;
  }

  /** The child of a layer that has children itself is the manifest, for which the layer calls first. */
  lemma InnerChildIsFirst(repo: Repo, d: Digest, c: Digest)
    requires AnnotationsAreBlobs(repo) && Edge(repo.objects, d, c) && repo.objects[d].Layer? && !Leaf(repo, c)
    ensures CallDigests(Items(repo.objects[d])) != [] && CallDigests(Items(repo.objects[d]))[0] == c
  {
    hide Leaf;
    var Layer(manifest, annotations) := repo.objects[d];
    assert BlobRef(c) !in annotations;
    assert manifest == Some(c);
    assert Items(repo.objects[d])[0] == Call(c, false);
  }

  lemma ParentHasCalled(repo: Repo, roots: seq<Digest>, heads: set<Digest>, s: State, open: set<Digest>,
                        next: map<Digest, Digest>, at: map<Digest, nat>, p: Digest, m: Digest)
    returns (k: nat)
    requires AnnotationsAreBlobs(repo) && Opened(repo, roots, heads, s, open, next, at)
    requires p in open && Edge(repo.objects, p, m) && !Leaf(repo, m) && m !in open
    ensures k < |s.tasks| && s.tasks[k].parent == Some(at[p]) && s.tasks[k].digest == m && s.tasks[k].phase.Start?
  {
    hide AnnotationsAreBlobs, NextCalled, Leaf;
    var obj := repo.objects[p];
    assert Asked(s, at[p], obj);
    if obj.Layer? {
      InnerChildIsFirst(repo, p, m);
      k :| OnlyCall(s, at[p], obj, k);
    } else {
      assert CalledBy(s, at[p], m);
      k :| 0 <= k < |s.tasks| && s.tasks[k].parent == Some(at[p]) && s.tasks[k].digest == m;
    }
  }

  /** The task by which an object is to be opened. */
  lemma FindTask(repo: Repo, lim: Limits, roots: seq<Digest>, heads: set<Digest>, s: State, open: set<Digest>,
                 next: map<Digest, Digest>, at: map<Digest, nat>, m: Digest)
    returns (k: nat)
    requires AnnotationsAreBlobs(repo) && Opened(repo, roots, heads, s, open, next, at) && m !in open && !Leaf(repo, m)
    requires CanBeOpen(repo, heads, open + {m}, next) && !Edge(repo.objects, m, m) && CanStart(lim, roots, heads)
    ensures k < |s.tasks| && s.tasks[k].digest == m && s.tasks[k].phase.Start?
    ensures s.tasks[k].parent.Some? || (m in heads && Startable(lim, k))
    ensures forall e :: e in open && next[e] == m ==> s.tasks[k].parent == Some(at[e])
  {
    hide AnnotationsAreBlobs, Edge, Leaf, OpenAsked, NextCalled, Startable;
    assert Called(repo, heads, open + {m}, m);
    if e :| e in open && next[e] == m {
      assert Edge(repo.objects, e, next[e]);
      k := ParentHasCalled(repo, roots, heads, s, open, next, at, e, m);
    } else if m in heads {
      assert StartableAs(lim, roots, m);
      k :| 0 <= k < |roots| && roots[k] == m && Startable(lim, k);
    } else {
      var p :| p in open + {m} && Edge(repo.objects, p, m);
      k := ParentHasCalled(repo, roots, heads, s, open, next, at, p, m);
    }
  }

  lemma {:induction false} FlightIsCounted(tasks: seq<Task>)
    requires forall i, j :: 0 <= i < j < |tasks| && InFlight(tasks[i]) && InFlight(tasks[j]) ==>
               tasks[i].digest != tasks[j].digest
    ensures RootsInFlight(tasks) == |Heads(tasks)|
  {
    if tasks != [] {
      FlightIsCounted(tasks[..|tasks| - 1]);
      HeadsMeans(tasks[..|tasks| - 1], tasks[|tasks| - 1].digest);
    }
  }

  /** As long as a head has not been opened, fewer roots than there are heads are in flight. */
  lemma HeadIsAdmitted(lim: Limits, roots: seq<Digest>, heads: set<Digest>, s: State, open: set<Digest>,
                       at: map<Digest, nat>, m: Digest, k: nat)
    requires OthersStart(s, open, at) && RootsThere(roots, heads, s) && |heads| <= lim.roots
    requires WaitingRoot(s.tasks, k) && m in heads && m !in open && Startable(lim, k)
    ensures Admitted(lim, s.tasks, k)
  {
    hide Heads, RootsInFlight;
    FlightIsCounted(s.tasks);
    forall d | d in Heads(s.tasks)
      ensures d in heads - {m}
    {
      HeadsMeans(s.tasks, d);
    }
    SubsetSize(Heads(s.tasks), heads - {m});
  }

  lemma TwoSteps(repo: Repo, lim: Limits, s: State, j: nat, e: Digest)
    requires j < |s.tasks| && s.tasks[j].phase.Start? && s.tasks[j].digest == e && e !in s.processed
    requires e in repo.objects && !repo.objects[e].Blob? && Open(s.tasks) < lim.permits && Admitted(lim, s.tasks, j)
    ensures var obj := repo.objects[e];
            Step(repo, lim, Step(repo, lim, s, j, true), j, true)
            == SetTask(s, j, Waiting(obj, Items(obj), []), {e}).(processed := s.processed[e := CheckStarted])
  {
    hide Items;
    var loading := SetTask(s, j, Loading, {e}).(processed := s.processed[e := LoadStarted]);
    OpenOfUpdate(s.tasks, j, loading.tasks[j]);
    hide Open;
    assert Step(repo, lim, s, j, true) == loading;
    assert StepLoading(repo, loading, j).tasks
           == SetTask(s, j, Waiting(repo.objects[e], Items(repo.objects[e]), []), {e}).tasks;
    assert loading.processed[e := CheckStarted] == s.processed[e := CheckStarted];
  }

  lemma {:induction false} OpenOfUpdate(tasks: seq<Task>, i: nat, t: Task)
    requires i < |tasks|
    ensures Open(tasks[i := t])
            == Open(tasks) - (if tasks[i].phase.Waiting? then 1 else 0) + (if t.phase.Waiting? then 1 else 0)
  {
    var init := tasks[..|tasks| - 1];
    if i < |tasks| - 1 {
      assert tasks[i := t][..|tasks| - 1] == init[i := t];
      OpenOfUpdate(init, i, t);
    } else {
      assert tasks[i := t][..|tasks| - 1] == init;
    }
  }

  /** The task has opened its object and made its calls; nobody else has moved. */
  ghost predicate OpenedBy(s: State, s': State, j: nat, obj: Object)
    requires j < |s.tasks|
  {
    && OnlyMoves(s, s', j) && s'.tasks[j].phase.Waiting? && s'.tasks[j].phase.obj == obj && Asked(s', j, obj)
    && s'.processed.Keys == s.processed.Keys + {s.tasks[j].digest}
  }

  lemma MakeCalls(repo: Repo, lim: Limits, s: State, j: nat, e: Digest, c: Digest) returns (moves: seq<(nat, bool)>)
    requires Edge(repo.objects, e, c) && WaitsWith(s, j, repo.objects[e], Items(repo.objects[e]))
    requires forall k :: 0 <= k < |s.tasks| ==> s.tasks[k].parent != Some(j)
    ensures var s' := Exec(repo, lim, s, moves);
            && OnlyMoves(s, s', j) && s'.tasks[j].phase.Waiting? && s'.tasks[j].phase.obj == repo.objects[e]
            && Asked(s', j, repo.objects[e]) && s'.processed == s.processed
  {
    ChildIsCalled(repo, e, c);
    var obj := repo.objects[e];
    if obj.Layer? {
      moves := CallNext(repo, lim, s, j, obj, Items(obj));
      hide Exec;
      assert OnlyCall(Exec(repo, lim, s, moves), j, obj, |s.tasks|);
    } else {
      moves := CallAll(repo, lim, s, j, obj, Items(obj));
      hide Exec;
      forall x | x in ChildObjects(obj)
        ensures CalledBy(Exec(repo, lim, s, moves), j, x)
      {
        assert Edge(repo.objects, e, x);
        ChildIsCalled(repo, e, x);
      }
    }
  }

  lemma OpenBy(repo: Repo, lim: Limits, s: State, j: nat, e: Digest, c: Digest) returns (moves: seq<(nat, bool)>)
    requires j < |s.tasks| && s.tasks[j].phase.Start? && s.tasks[j].digest == e && e !in s.processed
    requires Edge(repo.objects, e, c) && Open(s.tasks) < lim.permits && Admitted(lim, s.tasks, j)
    requires forall k :: 0 <= k < |s.tasks| ==> s.tasks[k].parent != Some(j)
    ensures OpenedBy(s, Exec(repo, lim, s, moves), j, repo.objects[e])
  {
    var obj := repo.objects[e];
    TwoSteps(repo, lim, s, j, e);
    var loading := Step(repo, lim, s, j, true);
    var loaded := Step(repo, lim, loading, j, true);
    ExecOne(repo, lim, s, j);
    ExecOne(repo, lim, loading, j);
    ExecAppend(repo, lim, s, [(j, true)], [(j, true)]);
    hide Exec, Step, Items, Open, Asked;
    assert OnlyMoves(s, loaded, j);
    var more := MakeCalls(repo, lim, loaded, j, e, c);
    moves := [(j, true)] + [(j, true)];
    ExecAppend(repo, lim, s, moves, more);
    moves := moves + more;
  }

  lemma AskedStays(s: State, s': State, j: nat, i: nat, obj: Object)
    requires OnlyMoves(s, s', j) && i != j && i < |s.tasks| && Asked(s, i, obj)
    ensures Asked(s', i, obj)
  {
    hide Items, AfterCall, CallDigests;
    if obj.Layer? {
      var k :| OnlyCall(s, i, obj, k);
      assert OnlyCall(s', i, obj, k);
    } else {
      forall c | c in ChildObjects(obj)
        ensures CalledBy(s', i, c)
      {
        assert CalledBy(s, i, c);
        var k :| 0 <= k < |s.tasks| && s.tasks[k].parent == Some(i) && s.tasks[k].digest == c;
        assert s'.tasks[k].parent == Some(i) && s'.tasks[k].digest == c;
      }
    }
  }

  lemma OneMoreOpened(repo: Repo, roots: seq<Digest>, heads: set<Digest>, s: State, s': State, open: set<Digest>,
                      next: map<Digest, Digest>, at: map<Digest, nat>, m: Digest, j: nat)
    requires Opened(repo, roots, heads, s, open, next, at) && m !in open && m in next && m in repo.objects
    requires j < |s.tasks| && s.tasks[j].digest == m && s.tasks[j].phase.Start? && OpenedBy(s, s', j, repo.objects[m])
    requires forall e :: e in open && next[e] == m ==> s.tasks[j].parent == Some(at[e])
    requires next[m] !in open + {m} && (s.tasks[j].parent.Some? || m in heads)
    ensures Opened(repo, roots, heads, s', open + {m}, next, at[m := j])
  {
    MoreAtOpen(s, s', open, next, at, m, j);
    MoreOthersStart(s, s', open, at, m, j);
    MoreAsked(repo, s, s', open, at, m, j);
    RootsStay(roots, heads, s, s', j);
    hide Asked, OpenAsked, AtOpen, OthersStart, NextCalled, OnlyMoves, RootsThere;
  }

  lemma RootsStay(roots: seq<Digest>, heads: set<Digest>, s: State, s': State, j: nat)
    requires RootsThere(roots, heads, s) && OnlyMoves(s, s', j)
             && (s.tasks[j].parent.Some? || s.tasks[j].digest in heads)
    ensures RootsThere(roots, heads, s')
  {
    assert forall i :: 0 <= i < |roots| ==> s'.tasks[i].digest == s.tasks[i].digest;
  }

  lemma MoreAtOpen(s: State, s': State, open: set<Digest>, next: map<Digest, Digest>, at: map<Digest, nat>, m: Digest,
                   j: nat)
    requires open + {m} <= next.Keys && AtOpen(s, open, at) && NextCalled(s, open, next, at) && m !in open
             && next[m] !in open + {m}
    requires OnlyMoves(s, s', j) && s.tasks[j].digest == m && s.tasks[j].phase.Start? && s'.tasks[j].phase.Waiting?
    requires forall e :: e in open && next[e] == m ==> s.tasks[j].parent == Some(at[e])
    ensures AtOpen(s', open + {m}, at[m := j]) && NextCalled(s', open + {m}, next, at[m := j])
  {
  }

  lemma MoreOthersStart(s: State, s': State, open: set<Digest>, at: map<Digest, nat>, m: Digest, j: nat)
    requires OthersStart(s, open, at) && m !in open
    requires OnlyMoves(s, s', j) && s.tasks[j].digest == m && s.tasks[j].phase.Start? && s'.tasks[j].phase.Waiting?
    ensures OthersStart(s', open + {m}, at[m := j])
  {
  }

  lemma MoreAsked(repo: Repo, s: State, s': State, open: set<Digest>, at: map<Digest, nat>, m: Digest, j: nat)
    requires AtOpen(s, open, at) && OpenAsked(repo, s, open, at) && m !in open && m in repo.objects
    requires j < |s.tasks| && s.tasks[j].digest == m && s.tasks[j].phase.Start? && OpenedBy(s, s', j, repo.objects[m])
    requires AtOpen(s', open + {m}, at[m := j])
    ensures OpenAsked(repo, s', open + {m}, at[m := j])
  {
    hide Asked;
    forall d | d in open
      ensures Asked(s', at[d], repo.objects[d])
    {
      AskedStays(s, s', j, at[d], repo.objects[d]);
    }
  }

  lemma {:induction false} Lowest(rank: Digest -> nat, open: set<Digest>) returns (m: Digest)
    requires open != {}
    ensures m in open && forall e :: e in open ==> rank(m) <= rank(e)
  {
    var x :| x in open;
    m := x;
    if open != {x} {
      var y := Lowest(rank, open - {x});
      m := if rank(x) <= rank(y) then x else y;
    }
  }

  lemma WithoutLowest(repo: Repo, rank: Digest -> nat, heads: set<Digest>, open: set<Digest>,
                      next: map<Digest, Digest>, m: Digest)
    requires CanBeOpen(repo, heads, open, next) && Ranked(repo.objects, rank)
    requires m in open && forall e :: e in open ==> rank(m) <= rank(e)
    ensures CanBeOpen(repo, heads, open - {m}, next) && next[m] !in open && !Edge(repo.objects, m, m)
  {
    hide Edge;
    forall d | d in open - {m}
      ensures Called(repo, heads, open - {m}, d)
    {
      assert Called(repo, heads, open, d);
      if d !in heads {
        var p :| p in open && Edge(repo.objects, p, d);
        assert p in open - {m};
      }
    }
    assert Edge(repo.objects, m, next[m]);
  }

  lemma OpenedCount(repo: Repo, roots: seq<Digest>, heads: set<Digest>, s: State, open: set<Digest>,
                    next: map<Digest, Digest>, at: map<Digest, nat>)
    requires Opened(repo, roots, heads, s, open, next, at)
    ensures Open(s.tasks) == |open|
  {
    hide OpenAsked, NextCalled, OpenDigests, Open;
    assert DistinctOpen(s.tasks);
    OpenIsCounted(s.tasks);
    forall d
      ensures d in OpenDigests(s.tasks) <==> d in open
    {
      OpenDigestsMeans(s.tasks, d);
    }
    assert OpenDigests(s.tasks) == open;
  }

  lemma InnerIsNoLeaf(repo: Repo, d: Digest, c: Digest)
    requires Edge(repo.objects, d, c)
    ensures !Leaf(repo, d)
  {
  }

  /** As long as there are permits, some run opens exactly these objects. */
  lemma {:induction false} OpenAll(repo: Repo, lim: Limits, rank: Digest -> nat, roots: seq<Digest>,
                                   heads: set<Digest>, open: set<Digest>, next: map<Digest, Digest>)
    returns (moves: seq<(nat, bool)>, at: map<Digest, nat>)
    requires AnnotationsAreBlobs(repo) && Ranked(repo.objects, rank) && CanBeOpen(repo, heads, open, next)
             && |open| <= lim.permits
    requires CanStart(lim, roots, heads)
    ensures Opened(repo, roots, heads, Exec(repo, lim, Init(roots), moves), open, next, at)
    decreases |open|
  {
    if open == {} {
      moves, at := [], map[];
    } else {
      var m := Lowest(rank, open);
      WithoutLowest(repo, rank, heads, open, next, m);
      assert Edge(repo.objects, m, next[m]);
      InnerIsNoLeaf(repo, m, next[m]);
      var higher := open - {m};
      assert higher + {m} == open;
      moves, at := OpenAll(repo, lim, rank, roots, heads, higher, next);
      hide Exec, AnnotationsAreBlobs, Ranked, Leaf, CanStart;
      var more;
      more, at := OpenOne(repo, lim, roots, heads, Exec(repo, lim, Init(roots), moves), higher, next, at, m);
      ExecAppend(repo, lim, Init(roots), moves, more);
      moves := moves + more;
    }
  }

  lemma OpenOne(repo: Repo, lim: Limits, roots: seq<Digest>, heads: set<Digest>, s: State, open: set<Digest>,
                next: map<Digest, Digest>, at: map<Digest, nat>, m: Digest)
    returns (moves: seq<(nat, bool)>, more: map<Digest, nat>)
    requires AnnotationsAreBlobs(repo) && Opened(repo, roots, heads, s, open, next, at) && m !in open && !Leaf(repo, m)
    requires CanBeOpen(repo, heads, open + {m}, next) && next[m] !in open + {m} && !Edge(repo.objects, m, m)
             && |open| < lim.permits
    requires CanStart(lim, roots, heads)
    ensures Opened(repo, roots, heads, Exec(repo, lim, s, moves), open + {m}, next, more)
  {
    hide AnnotationsAreBlobs, OpenAsked, NextCalled, Leaf, Exec, Open, OpenedBy;
    var k := FindTask(repo, lim, roots, heads, s, open, next, at, m);
    OpenedCount(repo, roots, heads, s, open, next, at);
    if s.tasks[k].parent.None? {
      HeadIsAdmitted(lim, roots, heads, s, open, at, m, k);
    }
    assert Edge(repo.objects, m, next[m]);
    moves := OpenBy(repo, lim, s, k, m, next[m]);
    more := at[m := k];
    hide Opened;
    OneMoreOpened(repo, roots, heads, s, Exec(repo, lim, s, moves), open, next, at, m, k);
  }

  // ----- Claiming what to wait for -----

  /** Task `j` and those of its calls that had not started move; new tasks are calls of `j`. */
  predicate MovesBelow(s: State, s': State, j: nat) {
    && j < |s.tasks| <= |s'.tasks| && s.tasks[j].phase.Waiting? && s'.tasks[j].phase.Waiting?
    && s'.tasks[j].phase.obj == s.tasks[j].phase.obj
    && (forall k :: 0 <= k < |s.tasks| ==>
          s'.tasks[k].parent == s.tasks[k].parent && s'.tasks[k].digest == s.tasks[k].digest)
    && (forall k :: 0 <= k < |s.tasks| && k != j && !(s.tasks[k].phase.Start? && s.tasks[k].parent == Some(j)) ==>
        s'.tasks[k] == s.tasks[k])
    && (forall k :: |s.tasks| <= k < |s'.tasks| ==> s'.tasks[k].parent == Some(j))
    && (NoneFailed(s) ==> NoneFailed(s'))
  }

  /** Task `j` now waits for a task that has claimed `f`. */
  predicate Claims(s: State, s': State, j: nat, f: Digest) {
    && MovesBelow(s, s', j) && s'.processed.Keys == s.processed.Keys + {f}
    && exists k :: 0 <= k < |s'.tasks| && s'.tasks[k].parent == Some(j) && s'.tasks[k].phase.Loading?
  }

  /** A layer waits for one call, which has not started. */
  predicate Pending(s: State, j: nat, obj: Object, k: nat, rest: seq<Item>) {
    && WaitsWith(s, j, obj, rest) && k < |s.tasks| && s.tasks[k].parent == Some(j) && s.tasks[k].phase.Start?
    && forall l :: 0 <= l < |s.tasks| && s.tasks[l].parent == Some(j) ==> l == k || s.tasks[l].phase.Delivered?
  }

  lemma ClaimNow(repo: Repo, lim: Limits, s: State, j: nat, k: nat)
    requires j < |s.tasks| && s.tasks[j].phase.Waiting? && k < |s.tasks| && s.tasks[k].phase.Start?
             && s.tasks[k].parent == Some(j)
    requires s.tasks[k].digest !in s.processed
    ensures Claims(s, Exec(repo, lim, s, [(k, true)]), j, s.tasks[k].digest)
  {
    ExecOne(repo, lim, s, k);
    hide Open, Items, Exec;
    var s' := Step(repo, lim, s, k, true);
    assert s'.tasks[k].phase.Loading? && s'.tasks[k].parent == Some(j);
  }

  /** The call of a layer turns out to be for something that is claimed, and returns. */
  lemma CallReturns(repo: Repo, lim: Limits, s: State, j: nat, obj: Object, k: nat, rest: seq<Item>)
    requires Pending(s, j, obj, k, rest) && s.tasks[k].digest in s.processed
    ensures var s' := Exec(repo, lim, s, [(k, true)] + [(k, true)]);
            MovesBelow(s, s', j) && WaitsWith(s', j, obj, rest) && CallsFinished(s', j) && s'.processed == s.processed
  {
    var done := Step(repo, lim, s, k, true);
    ExecOne(repo, lim, s, k);
    ExecOne(repo, lim, done, k);
    ExecAppend(repo, lim, s, [(k, true)], [(k, true)]);
    hide Open, Items, Exec;
    assert done.tasks[k].phase == Done(Duplicate);
  }

  lemma MovesBelowTwice(a: State, b: State, c: State, j: nat)
    requires MovesBelow(a, b, j) && MovesBelow(b, c, j)
    ensures MovesBelow(a, c, j)
  {
  }

  lemma CallIsPending(s: State, s': State, j: nat, obj: Object, rest: seq<Item>, c: Digest)
    requires CallMade(s, s', j, obj, rest, c) && s.tasks[j].phase.Waiting? && s.tasks[j].phase.obj == obj
             && CallsFinished(s, j)
    ensures MovesBelow(s, s', j) && Pending(s', j, obj, |s.tasks|, rest)
  {
  }

  lemma {:induction false} ClaimFirstFree(repo: Repo, lim: Limits, s: State, j: nat, obj: Object, k: nat,
                                          rest: seq<Item>, f: Digest)
    returns (moves: seq<(nat, bool)>)
    requires obj.Layer? && Pending(s, j, obj, k, rest)
    requires FirstFree([s.tasks[k].digest] + CallDigests(rest), s.processed.Keys) == Some(f)
    ensures Claims(s, Exec(repo, lim, s, moves), j, f)
    decreases |rest|, 0
  {
    var calls := [s.tasks[k].digest] + CallDigests(rest);
    assert calls[1..] == CallDigests(rest);
    if s.tasks[k].digest !in s.processed {
      moves := [(k, true)];
      ClaimNow(repo, lim, s, j, k);
    } else {
      CallReturns(repo, lim, s, j, obj, k, rest);
      moves := [(k, true)] + [(k, true)];
      hide Exec, MovesBelow, Pending, CallMade;
      var returned := Exec(repo, lim, s, moves);
      var call := CallNext(repo, lim, returned, j, obj, rest);
      var called := Exec(repo, lim, returned, call);
      CallIsPending(returned, called, j, obj, AfterCall(rest), CallDigests(rest)[0]);
      ExecAppend(repo, lim, s, moves, call);
      MovesBelowTwice(s, returned, called, j);
      var more := ClaimNext(repo, lim, returned, called, j, obj, rest, f);
      ExecAppend(repo, lim, s, moves + call, more);
      moves := moves + call + more;
      MovesBelowTwice(s, called, Exec(repo, lim, s, moves), j);
    }
  }

  lemma {:induction false} ClaimNext(repo: Repo, lim: Limits, s: State, called: State, j: nat, obj: Object,
                                     todo: seq<Item>, f: Digest)
    returns (moves: seq<(nat, bool)>)
    requires obj.Layer? && CallDigests(todo) != [] && CallMade(s, called, j, obj, AfterCall(todo), CallDigests(todo)[0])
    requires Pending(called, j, obj, |s.tasks|, AfterCall(todo))
             && FirstFree(CallDigests(todo), s.processed.Keys) == Some(f)
    ensures Claims(called, Exec(repo, lim, called, moves), j, f) && called.processed == s.processed
    decreases |AfterCall(todo)|, 1
  {
    moves := ClaimFirstFree(repo, lim, called, j, obj, |s.tasks|, AfterCall(todo), f);
  }

  // ----- All of them wait -----

  /** A list of what an open object may wait for, in the order in which it gets there. */
  function Choices(obj: Object, c: Digest): seq<Digest> {
    if obj.Layer? then CallDigests(Items(obj)) else [c]
  }

  /** The object has called, in a task that has not started, for what it is to wait for or gets there first. */
  ghost predicate Ready(s: State, j: nat, obj: Object, c: Digest) {
    if obj.Layer? then
      CallDigests(Items(obj)) != [] &&
      exists k: nat :: Pending(s, j, obj, k, AfterCall(Items(obj))) && s.tasks[k].digest == CallDigests(Items(obj))[0]
    else CallsFor(s, j, c)
  }

  predicate CallsFor(s: State, j: nat, c: Digest) {
    exists k :: 0 <= k < |s.tasks| && s.tasks[k].parent == Some(j) && s.tasks[k].phase.Start? && s.tasks[k].digest == c
  }

  function Lists(repo: Repo, free: set<Digest>, next: map<Digest, Digest>): map<Digest, seq<Digest>>
    requires free <= next.Keys && free <= repo.objects.Keys
  {
    map d | d in free :: Choices(repo.objects[d], next[d])
  }

  /** Of the open objects those in `held` wait, and the others are ready to. */
  ghost predicate Partly(repo: Repo, s: State, open: set<Digest>, next: map<Digest, Digest>, at: map<Digest, nat>,
                         held: set<Digest>) {
    && NoneFailed(s) && AtOpen(s, open, at) && open <= next.Keys && open <= repo.objects.Keys && held <= open
    && (forall d :: d in held ==> Held(s, open, at, at[d]))
    && (forall d :: d in open ==> s.tasks[at[d]].phase.obj == repo.objects[d])
    && (forall d :: d in open - held ==> Ready(s, at[d], repo.objects[d], next[d]))
    && Matching(Lists(repo, open - held, next), s.processed.Keys, next)
  }

  lemma ClaimFor(repo: Repo, lim: Limits, s: State, j: nat, obj: Object, f: Digest) returns (moves: seq<(nat, bool)>)
    requires j < |s.tasks| && s.tasks[j].phase.Waiting? && Ready(s, j, obj, f)
             && FirstFree(Choices(obj, f), s.processed.Keys) == Some(f)
    ensures Claims(s, Exec(repo, lim, s, moves), j, f)
  {
    if obj.Layer? {
      var k: nat :| Pending(s, j, obj, k, AfterCall(Items(obj))) && s.tasks[k].digest == CallDigests(Items(obj))[0];
      moves := ClaimFirstFree(repo, lim, s, j, obj, k, AfterCall(Items(obj)), f);
    } else {
      var k :| 0 <= k < |s.tasks| && s.tasks[k].parent == Some(j) && s.tasks[k].phase.Start? && s.tasks[k].digest == f;
      ClaimNow(repo, lim, s, j, k);
      moves := [(k, true)];
    }
  }

  lemma HeldStays(s: State, s': State, j: nat, open: set<Digest>, at: map<Digest, nat>, i: nat)
    requires MovesBelow(s, s', j) && Held(s, open, at, i) && i != j
    ensures Held(s', open, at, i)
  {
    var k :| 0 <= k < |s.tasks| && s.tasks[k].parent == Some(i) && Holding(s, open, at, k);
    assert s'.tasks[k].parent == Some(i) && Holding(s', open, at, k);
  }

  lemma ReadyStays(s: State, s': State, j: nat, i: nat, obj: Object, c: Digest)
    requires MovesBelow(s, s', j) && Ready(s, i, obj, c) && i != j && i < |s.tasks| && s.tasks[i].phase.Waiting?
    ensures Ready(s', i, obj, c)
  {
    hide Items, AfterCall, CallDigests;
    if obj.Layer? {
      var k: nat :| Pending(s, i, obj, k, AfterCall(Items(obj))) && s.tasks[k].digest == CallDigests(Items(obj))[0];
      assert Pending(s', i, obj, k, AfterCall(Items(obj)));
    } else {
      var k :| 0 <= k < |s.tasks| && s.tasks[k].parent == Some(i) && s.tasks[k].phase.Start? && s.tasks[k].digest == c;
      assert s'.tasks[k] == s.tasks[k];
    }
  }

  /** What one of them has claimed, none of the others is to wait for. */
  lemma FewerMatch(repo: Repo, free: set<Digest>, next: map<Digest, Digest>, claimed: set<Digest>, d: Digest)
    requires free <= next.Keys && free <= repo.objects.Keys && d in free
             && Matching(Lists(repo, free, next), claimed, next)
    ensures Matching(Lists(repo, free - {d}, next), claimed + {next[d]}, next)
  {
    hide Choices;
    var lists := Lists(repo, free, next);
    forall e | e in free - {d}
      ensures next[e] in Choices(repo.objects[e], next[e]) && next[e] !in claimed + {next[d]}
    {
      assert e in lists && d in lists;
    }
  }

  lemma OneMoreHeld(repo: Repo, s: State, s': State, open: set<Digest>, next: map<Digest, Digest>,
                    at: map<Digest, nat>, held: set<Digest>, d: Digest)
    requires Partly(repo, s, open, next, at, held) && d in open - held && Claims(s, s', at[d], next[d])
    ensures Partly(repo, s', open, next, at, held + {d})
  {
    hide Ready, Choices;
    assert Held(s', open, at, at[d]) by {
      hide Partly;
      var k :| 0 <= k < |s'.tasks| && s'.tasks[k].parent == Some(at[d]) && s'.tasks[k].phase.Loading?;
      assert Holding(s', open, at, k);
    }
    FewerMatch(repo, open - held, next, s.processed.Keys, d);
    assert open - held - {d} == open - (held + {d});
    hide Held, Matching, Lists;
    forall e | e in held
      ensures Held(s', open, at, at[e])
    {
      HeldStays(s, s', at[d], open, at, at[e]);
    }
    forall e | e in open - (held + {d})
      ensures Ready(s', at[e], repo.objects[e], next[e])
    {
      ReadyStays(s, s', at[d], at[e], repo.objects[e], next[e]);
    }
    assert AtOpen(s', open, at);
  }

  lemma TradedIsReady(repo: Repo, s: State, open: set<Digest>, next: map<Digest, Digest>, traded: map<Digest, Digest>,
                      at: map<Digest, nat>, held: set<Digest>)
    requires Partly(repo, s, open, next, at, held) && open <= traded.Keys
    requires Matching(Lists(repo, open - held, next), s.processed.Keys, traded)
    ensures Partly(repo, s, open, traded, at, held)
    ensures Lists(repo, open - held, traded) == Lists(repo, open - held, next)
  {
    hide Pending, Items, AfterCall, CallDigests, Held;
    forall d | d in open - held && !repo.objects[d].Layer?
      ensures traded[d] == next[d]
    {
      assert traded[d] in Lists(repo, open - held, next)[d];
    }
  }

  /** One more of the open objects comes to wait. */
  lemma HoldOne(repo: Repo, lim: Limits, s: State, open: set<Digest>, next: map<Digest, Digest>, at: map<Digest, nat>,
                held: set<Digest>)
    returns (moves: seq<(nat, bool)>, d: Digest, traded: map<Digest, Digest>)
    requires Partly(repo, s, open, next, at, held) && held != open
    ensures d in open - held && Partly(repo, Exec(repo, lim, s, moves), open, traded, at, held + {d})
  {
    hide Ready, Held, Choices, Exec, Claims, FirstFree, Matching;
    var x :| x in open - held;
    var lists := Lists(repo, open - held, next);
    assert Envies(lists, s.processed.Keys, next, [x]);
    d, traded := Trade(lists, s.processed.Keys, next, [x]);
    TradedIsReady(repo, s, open, next, traded, at, held);
    assert lists[d] == Choices(repo.objects[d], traded[d]);
    moves := ClaimFor(repo, lim, s, at[d], repo.objects[d], traded[d]);
    OneMoreHeld(repo, s, Exec(repo, lim, s, moves), open, traded, at, held, d);
  }

  lemma AllHeld(repo: Repo, s: State, open: set<Digest>, next: map<Digest, Digest>, at: map<Digest, nat>)
    requires Partly(repo, s, open, next, at, open)
    ensures NoneFailed(s) && Blocked(s, open, at)
  {
    hide Held, Matching, Ready;
  }

  /** One after the other, all of them come to wait. */
  lemma {:induction false} HoldAll(repo: Repo, lim: Limits, s: State, open: set<Digest>, next: map<Digest, Digest>,
                                   at: map<Digest, nat>, held: set<Digest>)
    returns (moves: seq<(nat, bool)>)
    requires held <= open && Partly(repo, s, open, next, at, held)
    ensures var s' := Exec(repo, lim, s, moves); NoneFailed(s') && Blocked(s', open, at)
    decreases |open - held|
  {
    hide Partly, Blocked, NoneFailed;
    if held == open {
      AllHeld(repo, s, open, next, at);
      moves := [];
    } else {
      hide Exec;
      var d, traded;
      moves, d, traded := HoldOne(repo, lim, s, open, next, at, held);
      assert open - (held + {d}) == open - held - {d};
      var more := HoldAll(repo, lim, Exec(repo, lim, s, moves), open, traded, at, held + {d});
      ExecAppend(repo, lim, s, moves, more);
      moves := moves + more;
    }
  }

  // ----- From the start of a check to the point where it is blocked -----

  predicate HoldsAnother(s: State, i: nat) {
    exists k :: 0 <= k < |s.tasks| && s.tasks[k].parent == Some(i) && s.tasks[k].phase.Waiting?
  }

  function HeldAlready(s: State, open: set<Digest>, at: map<Digest, nat>): set<Digest> {
    set d | d in open && d in at && HoldsAnother(s, at[d])
  }

  lemma NextIsFree(repo: Repo, roots: seq<Digest>, heads: set<Digest>, s: State, open: set<Digest>,
                   next: map<Digest, Digest>, at: map<Digest, nat>, d: Digest)
    requires Opened(repo, roots, heads, s, open, next, at) && d in open && !HoldsAnother(s, at[d])
    ensures next[d] !in open
  {
    hide OpenAsked, OthersStart;
  }

  lemma LayerIsReady(s: State, j: nat, obj: Object, c: Digest)
    requires obj.Layer? && Asked(s, j, obj) && c in CallDigests(Items(obj))
    requires forall k :: 0 <= k < |s.tasks| && s.tasks[k].parent == Some(j) ==> s.tasks[k].phase.Start?
    ensures Ready(s, j, obj, c) && c in Choices(obj, c)
  {
    hide Items, AfterCall, CallDigests;
    var k: nat :| OnlyCall(s, j, obj, k);
    assert Pending(s, j, obj, k, AfterCall(Items(obj)));
  }

  lemma OtherIsReady(s: State, j: nat, obj: Object, c: Digest)
    requires !obj.Layer? && Asked(s, j, obj) && c in ChildObjects(obj)
    requires forall k :: 0 <= k < |s.tasks| && s.tasks[k].parent == Some(j) ==> s.tasks[k].phase.Start?
    ensures Ready(s, j, obj, c) && c in Choices(obj, c)
  {
    assert CalledBy(s, j, c);
  }

  lemma OpenedIsReady(repo: Repo, roots: seq<Digest>, heads: set<Digest>, s: State, open: set<Digest>,
                      next: map<Digest, Digest>, at: map<Digest, nat>, d: Digest)
    requires Opened(repo, roots, heads, s, open, next, at) && d in open && Edge(repo.objects, d, next[d])
             && !HoldsAnother(s, at[d])
    ensures Ready(s, at[d], repo.objects[d], next[d]) && next[d] in Choices(repo.objects[d], next[d])
  {
    ChildIsCalled(repo, d, next[d]);
    hide NextCalled, Asked, Ready, Choices, Items, CallDigests;
    assert forall k :: 0 <= k < |s.tasks| && s.tasks[k].parent == Some(at[d]) ==> s.tasks[k].phase.Start?;
    if repo.objects[d].Layer? {
      LayerIsReady(s, at[d], repo.objects[d], next[d]);
    } else {
      OtherIsReady(s, at[d], repo.objects[d], next[d]);
    }
  }

  lemma HeldAlreadyIsHeld(s: State, open: set<Digest>, at: map<Digest, nat>, d: Digest)
    requires AtOpen(s, open, at) && OthersStart(s, open, at) && d in HeldAlready(s, open, at)
    ensures Held(s, open, at, at[d])
  {
    var k :| 0 <= k < |s.tasks| && s.tasks[k].parent == Some(at[d]) && s.tasks[k].phase.Waiting?;
    assert Holding(s, open, at, k);
  }

  lemma OpenedMatches(repo: Repo, roots: seq<Digest>, heads: set<Digest>, s: State, open: set<Digest>,
                      next: map<Digest, Digest>, at: map<Digest, nat>)
    requires Opened(repo, roots, heads, s, open, next, at) && CanBeOpen(repo, heads, open, next)
    ensures Matching(Lists(repo, open - HeldAlready(s, open, at), next), s.processed.Keys, next)
  {
    hide Asked, Ready, Choices, Called, Edge, OthersStart, NextCalled;
    var free := open - HeldAlready(s, open, at);
    forall d | d in free
      ensures next[d] !in open && next[d] in Choices(repo.objects[d], next[d])
    {
      NextIsFree(repo, roots, heads, s, open, next, at, d);
      OpenedIsReady(repo, roots, heads, s, open, next, at, d);
    }
  }

  lemma OpenedFacts(repo: Repo, roots: seq<Digest>, heads: set<Digest>, s: State, open: set<Digest>,
                    next: map<Digest, Digest>, at: map<Digest, nat>)
    requires Opened(repo, roots, heads, s, open, next, at)
    ensures NoneFailed(s) && open <= next.Keys && open <= repo.objects.Keys && AtOpen(s, open, at)
            && OthersStart(s, open, at)
    ensures forall d :: d in open ==> s.tasks[at[d]].phase.obj == repo.objects[d]
  {
    hide NextCalled, Asked;
  }

  lemma OpenedIsPartly(repo: Repo, roots: seq<Digest>, heads: set<Digest>, s: State, open: set<Digest>,
                       next: map<Digest, Digest>, at: map<Digest, nat>)
    requires Opened(repo, roots, heads, s, open, next, at) && CanBeOpen(repo, heads, open, next)
    ensures HeldAlready(s, open, at) <= open && Partly(repo, s, open, next, at, HeldAlready(s, open, at))
  {
    OpenedMatches(repo, roots, heads, s, open, next, at);
    OpenedFacts(repo, roots, heads, s, open, next, at);
    assert forall d :: d in open ==> Edge(repo.objects, d, next[d]);
    hide Opened, CanBeOpen, Ready, Choices, Edge, Held, Matching, Lists, NoneFailed, OthersStart, HoldsAnother;
    var held := HeldAlready(s, open, at);
    forall d | d in held
      ensures Held(s, open, at, at[d])
    {
      HeldAlreadyIsHeld(s, open, at, d);
    }
    forall d | d in open - held
      ensures Ready(s, at[d], repo.objects[d], next[d])
    {
      OpenedIsReady(repo, roots, heads, s, open, next, at, d);
    }
  }

  /** Fewer objects can be open as well. */
  lemma {:induction false} Fewer(repo: Repo, rank: Digest -> nat, heads: set<Digest>, open: set<Digest>,
                                 next: map<Digest, Digest>, n: nat)
    returns (fewer: set<Digest>)
    requires CanBeOpen(repo, heads, open, next) && Ranked(repo.objects, rank) && n <= |open|
    ensures CanBeOpen(repo, heads, fewer, next) && |fewer| == n
    decreases |open|
  {
    hide CanBeOpen, Ranked;
    fewer := open;
    if n < |open| {
      var m := Lowest(rank, open);
      WithoutLowest(repo, rank, heads, open, next, m);
      fewer := Fewer(repo, rank, heads, open - {m}, next, n);
    }
  }

  /** The check has come to a point where nothing has failed and from which no continuation finishes it. */
  ghost predicate BlocksAfter(repo: Repo, lim: Limits, roots: seq<Digest>, moves: seq<(nat, bool)>) {
    var s := Exec(repo, lim, Init(roots), moves);
    NoneFailed(s) && forall more :: !Finished(roots, Exec(repo, lim, s, more))
  }

  /**
    If as many objects as there are permits can be open at once below roots that can be in flight at
    once, some run blocks for ever.
   */
  lemma OpenObjectsBlock(repo: Repo, lim: Limits, rank: Digest -> nat, roots: seq<Digest>, heads: set<Digest>,
                         open: set<Digest>, next: map<Digest, Digest>)
    returns (moves: seq<(nat, bool)>)
    requires AnnotationsAreBlobs(repo) && Ranked(repo.objects, rank) && CanStart(lim, roots, heads)
    requires CanBeOpen(repo, heads, open, next) && |open| >= lim.permits > 0
    ensures BlocksAfter(repo, lim, roots, moves)
  {
    hide Exec, CanBeOpen, Ranked, AnnotationsAreBlobs, Opened, Partly, Blocked, NoneFailed, Finished, CanStart;
    var fewer := Fewer(repo, rank, heads, open, next, lim.permits);
    var at;
    moves, at := OpenAll(repo, lim, rank, roots, heads, fewer, next);
    var full := Exec(repo, lim, Init(roots), moves);
    OpenedIsPartly(repo, roots, heads, full, fewer, next, at);
    var more := HoldAll(repo, lim, full, fewer, next, at, HeldAlready(full, fewer, at));
    ExecAppend(repo, lim, Init(roots), moves, more);
    moves := moves + more;
    var blocked := Exec(repo, lim, Init(roots), moves);
    forall rest
      ensures !Finished(roots, Exec(repo, lim, blocked, rest))
    {
      NeverFinishes(repo, lim, roots, blocked, fewer, at, rest);
    }
  }

  lemma {:induction false} NothingLoads(repo: Repo, lim: Limits, roots: seq<Digest>, s: State, i: nat,
                                        schedule: seq<(nat, bool)>)
    requires lim.permits == 0 && i < |s.tasks| && s.tasks[i].phase.Loading?
    ensures !Finished(roots, Exec(repo, lim, s, schedule))
    decreases |schedule|
  {
    if schedule != [] {
      hide Step;
      LoadingStays(repo, lim, s, schedule[0].0, schedule[0].1, i);
      NothingLoads(repo, lim, roots, Step(repo, lim, s, schedule[0].0, schedule[0].1), i, schedule[1..]);
    }
  }

  /** Without permits any check of something blocks. */
  lemma NoPermitBlocks(repo: Repo, lim: Limits, roots: seq<Digest>) returns (moves: seq<(nat, bool)>)
    requires roots != [] && lim.permits == 0 && lim.Valid()
    ensures BlocksAfter(repo, lim, roots, moves)
  {
    var start := Init(roots);
    NoneInFlight(start.tasks);
    assert WaitingRoot(start.tasks, 0);
    assert lim.SomeAdmitted(start.tasks);
    var i: nat :| WaitingRoot(start.tasks, i) && lim.admits(start.tasks, i);
    moves := [(i, true)];
    ExecOne(repo, lim, start, i);
    hide Exec, Finished;
    var s := Step(repo, lim, start, i, true);
    assert s.tasks[i].phase.Loading?;
    forall more
      ensures !Finished(roots, Exec(repo, lim, s, more))
    {
      NothingLoads(repo, lim, roots, s, i, more);
    }
  }
}
