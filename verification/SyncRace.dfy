/**
  The converse: if something that has to be copied is waited for twice, some interleaving of a
  concurrent sync stores what refers to it before it is stored itself.

  The interleaving lets one of the two waiters get as far as claiming the shared digest, then
  runs everything else until nothing can move but the task that made the claim.
 */
module SyncRace {
  import opened Graph
  import opened SyncProtocol
  import opened SyncProgress
  import opened SyncSharing

  /** Everything that is asked for can be read, and objects refer to what they should. */
  ghost predicate Complete(su: Setup, items: seq<Call>, rank: Digest -> nat) {
    && su.Valid() && TopLevel(items) && Closed(su.initial) && Ranked(su.content, rank)
    && su.manifestPermits > 0 && su.payloadPermits > 0
    && (forall i :: 0 <= i < |items| && items[i].TagCall? ==> items[i].tag in su.src.tags)
    && (forall d :: Reachable(su.content, Roots(su, items), d) ==> Available(su, d) && ManifestThere(su, d))
    && (forall d :: d in su.content ==> WellTyped(su.content, su.content[d]))
  }

  predicate InSource(su: Setup, d: Digest) {
    d in su.src.objects && (su.src.objects[d].Blob? ==> d in su.src.payloads)
  }

  /** The destination has held it from the start, and that is enough. */
  predicate Trusted(su: Setup, d: Digest) {
    su.policy.CheckExistingObjects() && d in su.initial.objects
  }

  predicate Available(su: Setup, d: Digest) {
    InSource(su, d) || Trusted(su, d)
  }

  /** The manifest of a layer that is copied is read from the source only. */
  predicate ManifestThere(su: Setup, d: Digest) {
    d in su.content && su.content[d].Layer? && su.content[d].manifest.Some? && !Trusted(su, d) ==>
      InSource(su, su.content[d].manifest.value)
  }

  /** The manifest of a layer is one, and its annotations are blobs. */
  predicate WellTyped(content: Objects, obj: Object) {
    obj.Layer? ==>
      && (obj.manifest.Some? ==> obj.manifest.value in content && content[obj.manifest.value].Manifest?)
      && forall c :: c in AnnotationBlobs(obj.annotations) ==> c in content && content[c].Blob?
  }

  // ----- Claiming the shared digest -----

  /** A task is about to start on a digest, and only what ranks above it has been processed. */
  ghost predicate AtStart(su: Setup, rank: Digest -> nat, s: State, j: nat, e: Digest) {
    && j < |s.tasks| && s.tasks[j].phase.Start? && HasDigest(s.tasks[j], e) && !s.tasks[j].call.EntryCall?
    && (s.tasks[j].call.ManifestCall? ==> e in su.content && su.content[e].Manifest?)
    && s.dest == su.initial
    && forall x :: x in s.processed ==> rank(x) > rank(e)
  }

  function Claim(s: State, j: nat, e: Digest): State
    requires j < |s.tasks|
  {
    SetPhase(s, j, Claimed(e)).(processed := s.processed + {e})
  }

  lemma ClaimIt(su: Setup, rank: Digest -> nat, s: State, j: nat, e: Digest) returns (moves: seq<(nat, Outcome)>)
    requires su.Valid() && AtStart(su, rank, s, j, e) && Missing(su, e) && e in su.src.objects
    ensures Calm(moves) && Exec(su, s, moves) == Claim(s, j, e)
  {
    var begun := SetPhase(s, j, Begin(e));
    var claimed := Claim(s, j, e);
    assert e !in s.processed;
    assert begun.tasks[j := begun.tasks[j].(phase := Claimed(e))] == claimed.tasks;
    assert Step(su, begun, j, Proceeds) == claimed;
    ExecOne(su, begun, j);
    if s.tasks[j].call.ManifestCall? {
      assert Step(su, s, j, Proceeds) == begun;
      ExecOne(su, s, j);
      ExecAppend(su, s, [(j, Proceeds)], [(j, Proceeds)]);
      moves := [(j, Proceeds)] + [(j, Proceeds)];
    } else {
      var read := SetPhase(s, j, Read(e));
      assert Step(su, s, j, Proceeds) == read;
      assert read.tasks[j := read.tasks[j].(phase := Begin(e))] == begun.tasks;
      assert Step(su, read, j, Proceeds) == begun;
      ExecOne(su, s, j);
      ExecOne(su, read, j);
      ExecAppend(su, s, [(j, Proceeds)], [(j, Proceeds)]);
      ExecAppend(su, s, [(j, Proceeds)] + [(j, Proceeds)], [(j, Proceeds)]);
      moves := [(j, Proceeds)] + [(j, Proceeds)] + [(j, Proceeds)];
    }
  }

  /** Every operation of the schedule succeeds. */
  predicate Calm(schedule: seq<(nat, Outcome)>) {
    forall k :: 0 <= k < |schedule| ==> schedule[k].1 == Proceeds
  }

  /** The task waits for the object, and has called for task `j`. */
  predicate WaitsFor(s: State, i: nat, p: Digest, j: nat) {
    i < |s.tasks| && s.tasks[i].phase.Waiting? && s.tasks[i].phase.d == p && j in s.tasks[i].phase.made
  }

  /** The next call in the list that asks for `e`. */
  predicate Pending(todo: seq<Call>, e: Digest) {
    exists k :: k in todo && !k.TagCall? && k.digest == e
  }

  /** Task `i` is about to make the calls of its object, among them one for `e`. */
  ghost predicate CanCall(su: Setup, rank: Digest -> nat, s: State, i: nat, p: Digest, todo: seq<Call>, made: set<nat>,
                          e: Digest) {
    && su.Valid() && InRange(su, p, false) && WellTyped(su.content, su.content[p]) && InRange(su, e, false)
    && i < |s.tasks| && s.tasks[i].phase == Waiting(p, todo, made) && Pending(todo, e)
    && (forall k :: k in todo ==> k in Calls(su.content[p]))
    && (su.content[p].Layer? ==> todo == Calls(su.content[p]) && made == {})
    && s.dest == su.initial && forall x :: x in s.processed ==> rank(x) > rank(e)
  }

  /** Platforms call for everything at once; the first call of a layer is for its manifest. */
  lemma OneCall(su: Setup, rank: Digest -> nat, s: State, i: nat, p: Digest, todo: seq<Call>, made: set<nat>, e: Digest)
    requires CanCall(su, rank, s, i, p, todo, made, e)
    ensures todo != []
    ensures var next := Step(su, s, i, Proceeds);
            && next.processed == s.processed
            && if !todo[0].TagCall? && todo[0].digest == e
               then AtStart(su, rank, next, |s.tasks|, e) && WaitsFor(next, i, p, |s.tasks|)
               else CanCall(su, rank, next, i, p, todo[1..], made + {|s.tasks|}, e)
  {
    SpawnStep(su, s, i, p, todo, made);
    CallIsTyped(su, p, todo[0]);
    FirstIsManifest(su, p, todo, e);
    hide Step, Calls;
  }

  lemma {:induction false} CallFor(su: Setup, rank: Digest -> nat, s: State, i: nat, p: Digest, todo: seq<Call>,
                                   made: set<nat>, e: Digest)
    returns (moves: seq<(nat, Outcome)>, j: nat)
    requires CanCall(su, rank, s, i, p, todo, made, e)
    ensures Calm(moves) && AtStart(su, rank, Exec(su, s, moves), j, e) && WaitsFor(Exec(su, s, moves), i, p, j)
    ensures Exec(su, s, moves).processed == s.processed
    decreases |todo|
  {
    hide CanCall, AtStart, WaitsFor, Step, Exec;
    OneCall(su, rank, s, i, p, todo, made, e);
    ExecOne(su, s, i);
    moves, j := [(i, Proceeds)], |s.tasks|;
    if todo[0].TagCall? || todo[0].digest != e {
      var more;
      more, j := CallFor(su, rank, Step(su, s, i, Proceeds), i, p, todo[1..], made + {|s.tasks|}, e);
      ExecAppend(su, s, moves, more);
      moves := moves + more;
    }
  }

  lemma SpawnStep(su: Setup, s: State, i: nat, p: Digest, todo: seq<Call>, made: set<nat>)
    requires i < |s.tasks| && s.tasks[i].phase == Waiting(p, todo, made) && todo != []
    requires su.ObjectOf(p).Layer? ==> made == {}
    ensures Step(su, s, i, Proceeds) == SetPhase(Spawn(s, todo[0]), i, Waiting(p, todo[1..], made + {|s.tasks|}))
  {
  }

  lemma CallIsTyped(su: Setup, p: Digest, k: Call)
    requires su.Valid() && InRange(su, p, false) && WellTyped(su.content, su.content[p]) && k in Calls(su.content[p])
    ensures !k.TagCall?
    ensures InRange(su, k.digest, false) ==> !k.EntryCall? && (k.ManifestCall? ==> su.content[k.digest].Manifest?)
  {
    hide Calls, ChildObjects;
  }

  lemma FirstIsManifest(su: Setup, p: Digest, todo: seq<Call>, e: Digest)
    requires InRange(su, p, false) && WellTyped(su.content, su.content[p]) && InRange(su, e, false) && Pending(todo, e)
    ensures su.content[p].Layer? && todo == Calls(su.content[p]) ==> todo[0] == ManifestCall(e)
    ensures todo[0].TagCall? || todo[0].digest != e ==> Pending(todo[1..], e)
  {
    var k :| k in todo && !k.TagCall? && k.digest == e;
    assert k == todo[0] || k in todo[1..];
  }

  lemma StartCalls(su: Setup, rank: Digest -> nat, s: State, j: nat, p: Digest, e: Digest)
    requires su.Valid() && Ranked(su.content, rank) && p in su.content && WellTyped(su.content, su.content[p])
    requires AtStart(su, rank, s, j, p) && Missing(su, p) && Missing(su, e) && Edge(su.content, p, e)
    ensures var claimed := Claim(s, j, p);
            CanCall(su, rank, Step(su, claimed, j, Proceeds), j, p, Calls(su.content[p]), {}, e)
  {
    var claimed := Claim(s, j, p);
    ClaimedCalls(su, claimed, j, p, e);
    hide Step, Calls, WellTyped;
    assert InRange(su, e, false) && InRange(su, p, false);
  }

  lemma ClaimedCalls(su: Setup, claimed: State, j: nat, p: Digest, e: Digest)
    requires su.Valid() && j < |claimed.tasks| && claimed.tasks[j].phase == Claimed(p)
    requires Missing(su, p) && Missing(su, e) && Edge(su.content, p, e) && p !in claimed.dest.objects
    ensures Step(su, claimed, j, Proceeds) == SetPhase(claimed, j, Waiting(p, Calls(su.content[p]), {}))
    ensures Pending(Calls(su.content[p]), e)
  {
    ChildIsPending(su.content[p], e);
    assert !su.content[p].Manifest?;
    hide Calls, ManifestsHeld;
  }

  lemma ChildIsPending(obj: Object, e: Digest)
    requires e in ChildObjects(obj)
    ensures Pending(Calls(obj), e)
  {
    var calls := Calls(obj);
    var k :| k in calls && !k.TagCall? && k.digest == e;
  }

  /** From a task about to start on a parent to one about to start on a child. */
  lemma Descend(su: Setup, rank: Digest -> nat, s: State, j: nat, p: Digest, e: Digest)
    returns (moves: seq<(nat, Outcome)>, child: nat)
    requires su.Valid() && Ranked(su.content, rank) && p in su.content && WellTyped(su.content, su.content[p])
    requires AtStart(su, rank, s, j, p) && Missing(su, p) && p in su.src.objects && Missing(su, e)
             && Edge(su.content, p, e)
    ensures Calm(moves) && AtStart(su, rank, Exec(su, s, moves), child, e) && WaitsFor(Exec(su, s, moves), j, p, child)
  {
    StartCalls(su, rank, s, j, p, e);
    hide CanCall, AtStart, WaitsFor, Step, Exec, Missing, Calls;
    moves := ClaimIt(su, rank, s, j, p);
    var claimed := Claim(s, j, p);
    ExecOne(su, claimed, j);
    ExecAppend(su, s, moves, [(j, Proceeds)]);
    moves := moves + [(j, Proceeds)];
    var more;
    more, child := CallFor(su, rank, Step(su, claimed, j, Proceeds), j, p, Calls(su.content[p]), {}, e);
    ExecAppend(su, s, moves, more);
    moves := moves + more;
  }

  /** The task that an item starts for the digest that it asks for. */
  lemma StartItem(su: Setup, items: seq<Call>, rank: Digest -> nat, i: nat, e: Digest)
    returns (moves: seq<(nat, Outcome)>, j: nat)
    requires Complete(su, items, rank) && i < |items| && Wanted(su, items[i]) == Some(e)
    ensures Calm(moves) && AtStart(su, rank, Exec(su, Init(su, items), moves), j, e)
    ensures if items[i].TagCall? then
              var s := Exec(su, Init(su, items), moves);
              i < |s.tasks| && s.tasks[i].phase.TagWaiting? && s.tasks[i].phase.child == j
            else j == i
  {
    var s := Init(su, items);
    if items[i].TagCall? {
      j := |s.tasks|;
      moves := [(i, Proceeds)];
      ExecOne(su, s, i);
    } else {
      j, moves := i, [];
    }
  }

  /** Along a path of missing objects from a root, some task gets to start on the last one. */
  lemma {:induction false} Approach(su: Setup, items: seq<Call>, rank: Digest -> nat, path: seq<Digest>)
    returns (moves: seq<(nat, Outcome)>, j: nat, parent: nat)
    requires Complete(su, items, rank) && Walk(su.content, path) && path[0] in Roots(su, items)
    requires Missing(su, path[|path| - 1])
    ensures Calm(moves) && AtStart(su, rank, Exec(su, Init(su, items), moves), j, path[|path| - 1])
    ensures |path| > 1 ==> WaitsFor(Exec(su, Init(su, items), moves), parent, path[|path| - 2], j)
    decreases |path|
  {
    var e := path[|path| - 1];
    if |path| == 1 {
      var i :| 0 <= i < |items| && Wanted(su, items[i]).Some? && Wanted(su, items[i]).value == e;
      moves, j := StartItem(su, items, rank, i, e);
      parent := 0;
    } else {
      var init, p := path[..|path| - 1], path[|path| - 2];
      MissingParent(su, p, e);
      assert WalkTo(su.content, Roots(su, items), init, p);
      assert Reachable(su.content, Roots(su, items), p) && Available(su, p) && InSource(su, p);
      var up;
      moves, parent, up := Approach(su, items, rank, init);
      hide AtStart, WaitsFor, Exec, Complete, Walk;
      var more;
      more, j := Descend(su, rank, Exec(su, Init(su, items), moves), parent, p, e);
      ExecAppend(su, Init(su, items), moves, more);
      moves := moves + more;
    }
  }

  // ----- What holds at every moment of a calm run -----

  /** The calls of an object are made from the first on. */
  predicate Late(su: Setup, t: Task) {
    t.phase.Waiting? ==>
      && (t.phase.made == {} ==> t.phase.todo == Calls(su.ObjectOf(t.phase.d)))
      && (t.phase.made != {} ==>
            Calls(su.ObjectOf(t.phase.d)) != [] && forall k :: k in t.phase.todo ==>
                k in Calls(su.ObjectOf(t.phase.d))[1..])
  }

  /** What the destination is trusted to hold is not copied. */
  predicate Copies(su: Setup, t: Task) {
    t.phase.Waiting? || t.phase.PayloadNext? || t.phase.Copying? ==> !Trusted(su, t.phase.d)
  }

  /** What has to be there for a task not to fail. */
  predicate Provided(su: Setup, call: Call) {
    if call.TagCall? then call.tag in su.src.tags
    else
      && Available(su, call.digest) && call.digest in su.content
      && (call.ManifestCall? ==> InSource(su, call.digest) && su.content[call.digest].Manifest?)
  }

  predicate TaskFine(su: Setup, t: Task) {
    !t.phase.Failed? && Late(su, t) && Copies(su, t) && Provided(su, t.call)
  }

  predicate TagsOk(su: Setup, s: State) {
    forall t :: t in s.dest.tags && t !in su.initial.tags ==> t in su.src.tags && s.dest.tags[t] == su.src.tags[t]
  }

  ghost predicate Fine(su: Setup, items: seq<Call>, s: State, og: seq<Origin>) {
    && Inv(su, s) && Traced(su, items, s, og) && Ordered(su, s) && TagsOk(su, s)
    && forall i :: 0 <= i < |s.tasks| ==> TaskFine(su, s.tasks[i])
  }

  lemma StartFine(su: Setup, items: seq<Call>, rank: Digest -> nat) returns (og: seq<Origin>)
    requires Complete(su, items, rank)
    ensures Fine(su, items, Init(su, items), og)
  {
    og := StartTraced(su, items);
    var s := Init(su, items);
    assert Inv(su, s) && Ordered(su, s) && TagsOk(su, s);
    hide Inv, Traced, Ordered, Reachable;
    forall i | 0 <= i < |s.tasks|
      ensures TaskFine(su, s.tasks[i])
    {
      ItemProvided(su, items, rank, i);
    }
  }

  lemma ItemProvided(su: Setup, items: seq<Call>, rank: Digest -> nat, i: nat)
    requires Complete(su, items, rank) && i < |items|
    ensures Provided(su, items[i])
  {
    hide Reachable, Ranked;
    if !items[i].TagCall? {
      var d := items[i].digest;
      assert Wanted(su, items[i]) == Some(d);
      assert d in Roots(su, items);
      RootReachable(su.content, Roots(su, items), d);
    }
  }

  lemma MovedIsLate(su: Setup, s: State, i: nat)
    requires i < |s.tasks| && Late(su, s.tasks[i])
    ensures var s' := Step(su, s, i, Proceeds); i < |s'.tasks| && Late(su, s'.tasks[i])
  {
    hide ManifestsHeld, PayloadsHeld, Calls;
  }

  lemma MovedCopies(su: Setup, s: State, i: nat)
    requires i < |s.tasks| && TaskOk(su, s, s.tasks[i]) && Copies(su, s.tasks[i]) && su.Valid() && Closed(su.initial)
    requires su.initial.objects.Keys <= s.dest.objects.Keys && su.initial.payloads <= s.dest.payloads
    ensures var s' := Step(su, s, i, Proceeds); i < |s'.tasks| && Copies(su, s'.tasks[i])
  {
    hide ManifestsHeld, PayloadsHeld, Calls, CallsCover;
    if s.tasks[i].phase.Begin? && Trusted(su, s.tasks[i].phase.d) {
      assert Holds(su.initial, s.tasks[i].phase.d);
    }
  }

  lemma MovedIsHealthy(su: Setup, s: State, i: nat)
    requires i < |s.tasks| && TaskOk(su, s, s.tasks[i]) && TaskFine(su, s.tasks[i]) && su.Valid()
    requires su.initial.objects.Keys <= s.dest.objects.Keys
    ensures var s' := Step(su, s, i, Proceeds);
            i < |s'.tasks| && !s'.tasks[i].phase.Failed? && s'.tasks[i].call == s.tasks[i].call
  {
    hide ManifestsHeld, PayloadsHeld, Calls, CallsCover, Late;
  }

  /** Whatever a task was asked for can be read. */
  lemma TaskAvailable(su: Setup, items: seq<Call>, rank: Digest -> nat, s: State, og: seq<Origin>, j: nat)
    requires Complete(su, items, rank) && Traced(su, items, s, og) && j < |s.tasks| && !s.tasks[j].call.TagCall?
    ensures Available(su, s.tasks[j].call.digest) && s.tasks[j].call.digest in su.content
  {
    TaskReachable(su, items, s, og, j);
    hide Traced, Reachable, Ranked;
  }

  /** A manifest that a layer calls for is one, and the source has it. */
  lemma NewManifest(su: Setup, items: seq<Call>, rank: Digest -> nat, s: State, og: seq<Origin>, i: nat)
    requires Complete(su, items, rank) && Fine(su, items, s, og) && i < |s.tasks|
    requires |Step(su, s, i, Proceeds).tasks| > |s.tasks|
    ensures var call := Step(su, s, i, Proceeds).tasks[|s.tasks|].call;
            && !call.TagCall?
            && (call.ManifestCall? ==>
                  InSource(su, call.digest) && call.digest in su.content && su.content[call.digest].Manifest?)
  {
    assert TaskOk(su, s, s.tasks[i]) && TaskFine(su, s.tasks[i]);
    if s.tasks[i].phase.Waiting? {
      TaskReachable(su, items, s, og, i);
      hide Inv, Traced, Ordered, Reachable, CallsCover, Late, Ranked;
      var d := s.tasks[i].phase.d;
      assert s.tasks[i].phase.todo[0] in Calls(su.content[d]);
      assert ManifestThere(su, d) && WellTyped(su.content, su.content[d]);
    } else {
      hide Inv, Traced, Ordered, Reachable, ManifestsHeld, PayloadsHeld, Calls, CallsCover, Late, Complete;
    }
  }

  lemma TagsStayOk(su: Setup, s: State, i: nat, outcome: Outcome)
    requires Inv(su, s) && TagsOk(su, s)
    ensures TagsOk(su, Step(su, s, i, outcome))
  {
    StepWrites(su, s, i, outcome);
    if i < |s.tasks| {
      assert TaskOk(su, s, s.tasks[i]);
    }
    hide Step, Inv;
  }

  lemma MovedIsFine(su: Setup, items: seq<Call>, rank: Digest -> nat, s: State, og: seq<Origin>, i: nat)
    requires Complete(su, items, rank) && Fine(su, items, s, og) && i < |s.tasks|
    ensures var s' := Step(su, s, i, Proceeds); i < |s'.tasks| && TaskFine(su, s'.tasks[i])
  {
    assert TaskOk(su, s, s.tasks[i]) && TaskFine(su, s.tasks[i]);
    assert su.initial.objects.Keys <= s.dest.objects.Keys && su.initial.payloads <= s.dest.payloads;
    assert su.Valid() && Closed(su.initial);
    hide Inv, Step, Complete, TaskOk, Late, Copies, Ordered, Traced, Provided, Closed, ContentAddressed, Within;
    MovedIsLate(su, s, i);
    MovedCopies(su, s, i);
    MovedIsHealthy(su, s, i);
  }

  lemma TasksStayFine(su: Setup, items: seq<Call>, rank: Digest -> nat, s: State, og: seq<Origin>, og': seq<Origin>,
                      i: nat, j: nat)
    requires Complete(su, items, rank) && Fine(su, items, s, og) && j < |Step(su, s, i, Proceeds).tasks|
    requires Traced(su, items, Step(su, s, i, Proceeds), og')
    ensures TaskFine(su, Step(su, s, i, Proceeds).tasks[j])
  {
    hide Inv, Traced, Ordered, Step, Calls, Complete;
    if i >= |s.tasks| {
      NoStep(su, s, i, Proceeds);
    } else if j == i {
      MovedIsFine(su, items, rank, s, og, i);
    } else {
      StepMovesOne(su, s, i, Proceeds);
      if j >= |s.tasks| {
        NewManifest(su, items, rank, s, og, i);
        TaskAvailable(su, items, rank, Step(su, s, i, Proceeds), og', j);
      }
    }
  }

  lemma StepStaysFine(su: Setup, items: seq<Call>, rank: Digest -> nat, s: State, og: seq<Origin>, i: nat)
    returns (og': seq<Origin>)
    requires Complete(su, items, rank) && Fine(su, items, s, og)
    ensures og <= og' && Fine(su, items, Step(su, s, i, Proceeds), og')
  {
    var s' := Step(su, s, i, Proceeds);
    hide Inv, Traced, Ordered, TagsOk, Step, TaskFine;
    og' := StepTraced(su, items, s, og, i, Proceeds);
    forall j | 0 <= j < |s'.tasks|
      ensures TaskFine(su, s'.tasks[j])
    {
      TasksStayFine(su, items, rank, s, og, og', i, j);
    }
    StepKeepsInv(su, s, i, Proceeds);
    StepKeepsOrder(su, s, i, Proceeds);
    TagsStayOk(su, s, i, Proceeds);
  }

  lemma {:induction false} CalmStaysFine(su: Setup, items: seq<Call>, rank: Digest -> nat, s: State, og: seq<Origin>,
                                         schedule: seq<(nat, Outcome)>)
    returns (og': seq<Origin>)
    requires Complete(su, items, rank) && Fine(su, items, s, og) && Calm(schedule)
    ensures og <= og' && Fine(su, items, Exec(su, s, schedule), og')
    decreases |schedule|
  {
    og' := og;
    if schedule != [] {
      hide Fine, Complete, Step;
      og' := StepStaysFine(su, items, rank, s, og, schedule[0].0);
      og' := CalmStaysFine(su, items, rank, Step(su, s, schedule[0].0, Proceeds), og', schedule[1..]);
    }
  }

  // ----- Everything else runs to its end -----

  /** Task `f` has claimed a digest that is not stored, and is left alone. */
  predicate Frozen(su: Setup, s: State, f: nat, d: Digest) {
    f < |s.tasks| && s.tasks[f].phase == Claimed(d) && InRange(su, d, false) && d !in s.dest.objects
  }

  lemma StaysFrozen(su: Setup, items: seq<Call>, s: State, og: seq<Origin>, f: nat, d: Digest, i: nat)
    requires Fine(su, items, s, og) && Frozen(su, s, f, d) && i != f && i < |s.tasks|
    ensures var s' := Step(su, s, i, Proceeds); Frozen(su, s', f, d) && s'.tasks[f] == s.tasks[f]
  {
    StepMovesOne(su, s, i, Proceeds);
    StepWrites(su, s, i, Proceeds);
    assert TaskOk(su, s, s.tasks[i]);
    OnlyClaimer(s, og, f, i, d);
    hide Step, Inv, CallsCover, Calls, Ordered, OneClaim;
  }

  lemma OnlyClaimer(s: State, og: seq<Origin>, f: nat, i: nat, d: Digest)
    requires OneClaim(s, og) && f < |s.tasks| && s.tasks[f].phase == Claimed(d) && i != f && i < |s.tasks|
    ensures !(Active(s.tasks[i]) && s.tasks[i].phase.d == d)
  {
    assert Claimer(s, og, f, d);
    assert Active(s.tasks[i]) && s.tasks[i].phase.d == d ==> Claimer(s, og, i, d);
  }

  /** Nothing but the frozen task can move. */
  ghost predicate Quiescent(su: Setup, s: State, f: nat) {
    forall i: nat :: i != f ==> Step(su, s, i, Proceeds) == s
  }

  lemma {:induction false} RunOut(su: Setup, items: seq<Call>, rank: Digest -> nat, s: State, og: seq<Origin>, f: nat,
                                  d: Digest)
    returns (moves: seq<(nat, Outcome)>, og': seq<Origin>)
    requires Complete(su, items, rank) && Fine(su, items, s, og) && Frozen(su, s, f, d)
    ensures var s' := Exec(su, s, moves);
            && og <= og' && Fine(su, items, s', og') && Frozen(su, s', f, d) && Quiescent(su, s', f)
    decreases Total(su, rank, s.tasks)
  {
    if i: nat :| i != f && Step(su, s, i, Proceeds) != s {
      var next := Step(su, s, i, Proceeds);
      if i >= |s.tasks| {
        NoStep(su, s, i, Proceeds);
      }
      StepDecreases(su, rank, s, i, Proceeds);
      StaysFrozen(su, items, s, og, f, d, i);
      hide Fine, Complete, Step, Frozen, Total;
      og' := StepStaysFine(su, items, rank, s, og, i);
      moves, og' := RunOut(su, items, rank, next, og', f, d);
      ExecOne(su, s, i);
      ExecAppend(su, s, [(i, Proceeds)], moves);
      moves := [(i, Proceeds)] + moves;
    } else {
      moves, og' := [], og;
    }
  }

  // ----- Who is left waiting -----

  predicate Unfinished(s: State, i: nat) {
    i < |s.tasks| && !s.tasks[i].phase.Returned?
  }

  /** The task waits for its calls, or for the target of its tag. */
  predicate JustWaits(su: Setup, s: State, i: nat) {
    i < |s.tasks| &&
    match s.tasks[i].phase
    case Waiting(d, todo, made) => (todo == [] || su.ObjectOf(d).Layer?) && !AllReturned(s, made)
    case TagWaiting(_, _, child) => !(child < |s.tasks| && s.tasks[child].phase.Returned?)
    case _ => false
  }

  lemma NoneCopies(su: Setup, s: State, f: nat, d: Digest)
    requires Frozen(su, s, f, d) && Quiescent(su, s, f) && su.payloadPermits > 0
    requires forall i :: 0 <= i < |s.tasks| ==> !s.tasks[i].phase.Failed?
    ensures forall i :: 0 <= i < |s.tasks| ==> !s.tasks[i].phase.Copying? && !s.tasks[i].phase.PayloadNext?
  {
    hide Calls, ManifestsHeld;
    forall i | 0 <= i < |s.tasks|
      ensures !s.tasks[i].phase.Copying?
    {
      assert i != f ==> Step(su, s, i, Proceeds) == s;
    }
    NoneHeld(su, s.tasks);
    forall i | 0 <= i < |s.tasks|
      ensures !s.tasks[i].phase.PayloadNext?
    {
      assert i != f ==> Step(su, s, i, Proceeds) == s;
    }
  }

  lemma NoneHolds(su: Setup, items: seq<Call>, s: State, og: seq<Origin>, f: nat, d: Digest, i: nat)
    requires su.Valid() && Fine(su, items, s, og) && Frozen(su, s, f, d) && Quiescent(su, s, f) && su.payloadPermits > 0
    requires i < |s.tasks|
    ensures !HoldsManifest(su, s.tasks[i])
  {
    if HoldsManifest(su, s.tasks[i]) {
      NoneCopies(su, s, f, d);
      assert WaitsForLater(su, s, i);
      assert forall k :: 0 <= k < |s.tasks| ==> TaskOk(su, s, s.tasks[k]);
      hide Inv, Traced, Ordered, TaskOk, Calls, Step;
      var j := HolderCanMove(su, s, i);
    }
  }

  /** Whoever is not done, and is not frozen, waits for somebody else. */
  lemma LeftWaits(su: Setup, items: seq<Call>, s: State, og: seq<Origin>, f: nat, d: Digest, i: nat)
    requires su.Valid() && Fine(su, items, s, og) && Frozen(su, s, f, d) && Quiescent(su, s, f)
    requires su.payloadPermits > 0 && su.manifestPermits > 0 && i != f && Unfinished(s, i)
    ensures JustWaits(su, s, i)
  {
    NoneCopies(su, s, f, d);
    forall t | t in s.tasks
      ensures !HoldsManifest(su, t)
    {
      var k :| 0 <= k < |s.tasks| && s.tasks[k] == t;
      NoneHolds(su, items, s, og, f, d, k);
    }
    NoneHeld(su, s.tasks);
    assert Step(su, s, i, Proceeds) == s;
    StuckWaits(su, s, i);
  }

  lemma StuckWaits(su: Setup, s: State, i: nat)
    requires i < |s.tasks| && Step(su, s, i, Proceeds) == s && ManifestsHeld(su, s.tasks) < su.manifestPermits
    requires !s.tasks[i].phase.Returned? && !s.tasks[i].phase.Failed? && !s.tasks[i].phase.Copying?
             && !s.tasks[i].phase.PayloadNext?
    ensures JustWaits(su, s, i)
  {
    hide Calls, ManifestsHeld, PayloadsHeld;
  }

  /** Task `i` has called for task `j`. */
  predicate Called(og: seq<Origin>, i: nat, j: nat) {
    j < |og| && (og[j] == Child(i) || og[j] == Target(i))
  }

  lemma WaitsForUnfinished(su: Setup, items: seq<Call>, s: State, og: seq<Origin>, i: nat) returns (j: nat)
    requires Fine(su, items, s, og) && JustWaits(su, s, i)
    ensures i < j && Called(og, i, j) && Unfinished(s, j)
  {
    assert WaitOk(s, og, i) && WaitsForLater(su, s, i);
    hide Inv, OneClaim, Calls, Ordered;
    if s.tasks[i].phase.Waiting? {
      j :| j in s.tasks[i].phase.made && !(j < |s.tasks| && s.tasks[j].phase.Returned?);
    } else {
      j := s.tasks[i].phase.child;
    }
    assert OriginOk(su, items, s, og, j);
  }

  /** Task `i` is task `j`, or it has called for it, directly or not. */
  predicate Above(og: seq<Origin>, i: nat, j: nat)
    decreases j
  {
    i == j || (j < |og| && !og[j].Item? && og[j].i < j && Above(og, i, og[j].i))
  }

  lemma {:induction false} AboveCalled(og: seq<Origin>, i: nat, j: nat, k: nat)
    requires i < j && Called(og, i, j) && Above(og, j, k)
    ensures Above(og, i, k)
    decreases k
  {
    if j != k {
      AboveCalled(og, i, j, og[k].i);
    }
  }

  /** Everybody who is left waits for the frozen task, directly or not. */
  lemma {:induction false} LeftAboveFrozen(su: Setup, items: seq<Call>, s: State, og: seq<Origin>, f: nat, d: Digest,
                                           i: nat)
    requires su.Valid() && Fine(su, items, s, og) && Frozen(su, s, f, d) && Quiescent(su, s, f)
    requires su.payloadPermits > 0 && su.manifestPermits > 0 && Unfinished(s, i)
    ensures Above(og, i, f)
    decreases |s.tasks| - i
  {
    if i != f {
      hide Fine, Frozen, Quiescent;
      LeftWaits(su, items, s, og, f, d, i);
      var j := WaitsForUnfinished(su, items, s, og, i);
      LeftAboveFrozen(su, items, s, og, f, d, j);
      AboveCalled(og, i, j, f);
    }
  }

  /** What has called for something, directly or not, ranks above it. */
  lemma {:induction false} ObjectAbove(su: Setup, items: seq<Call>, rank: Digest -> nat, s: State, og: seq<Origin>,
                                       i: nat, j: nat)
    requires Traced(su, items, s, og) && Ranked(su.content, rank) && j < |s.tasks| && Above(og, i, j)
    requires !s.tasks[j].call.TagCall? && i <= j && !s.tasks[i].call.TagCall?
    ensures i == j || rank(s.tasks[i].call.digest) > rank(s.tasks[j].call.digest)
    decreases j
  {
    hide OneClaim, WaitOk;
    assert OriginOk(su, items, s, og, j);
    if i != j {
      var b := og[j].i;
      AboveIsBefore(og, i, b);
      if og[j].Child? {
        assert Edge(su.content, s.tasks[b].call.digest, s.tasks[j].call.digest);
        ObjectAbove(su, items, rank, s, og, i, b);
      } else {
        TagIsItem(su, items, s, og, b);
      }
    }
  }

  lemma TagIsItem(su: Setup, items: seq<Call>, s: State, og: seq<Origin>, b: nat)
    requires Traced(su, items, s, og) && b < |items|
    ensures og[b] == Item && s.tasks[b].call == items[b]
  {
    assert OriginOk(su, items, s, og, b);
  }

  lemma {:induction false} AboveIsBefore(og: seq<Origin>, i: nat, j: nat)
    requires Above(og, i, j)
    ensures i <= j
    decreases j
  {
    if i != j {
      AboveIsBefore(og, i, og[j].i);
    }
  }

  /** The target of a tag ranks above whatever has been called for on its behalf. */
  lemma {:induction false} TagAbove(su: Setup, items: seq<Call>, rank: Digest -> nat, s: State, og: seq<Origin>,
                                    i: nat, j: nat)
    requires Traced(su, items, s, og) && Ranked(su.content, rank) && j < |s.tasks| && Above(og, i, j)
    requires !s.tasks[j].call.TagCall? && i < |items| && items[i].TagCall? && i <= j && s.tasks[i].call.TagCall?
    ensures og[j] == Target(i)
            || (Wanted(su, items[i]).Some? && rank(Wanted(su, items[i]).value) > rank(s.tasks[j].call.digest))
    decreases j
  {
    hide OneClaim, WaitOk;
    assert OriginOk(su, items, s, og, j);
    if i != j {
      var b := og[j].i;
      AboveIsBefore(og, i, b);
      if og[j].Child? {
        assert Edge(su.content, s.tasks[b].call.digest, s.tasks[j].call.digest);
        TagAbove(su, items, rank, s, og, i, b);
        assert OriginOk(su, items, s, og, b);
      } else {
        assert OriginOk(su, items, s, og, b) && og[b] == Item;
      }
    }
  }

  // ----- Everything above the shared digest has been processed -----

  /** Who is left has put its digest in `processed`. */
  lemma LeftIsProcessed(su: Setup, items: seq<Call>, s: State, og: seq<Origin>, f: nat, d: Digest, i: nat, e: Digest)
    requires su.Valid() && Fine(su, items, s, og) && Frozen(su, s, f, d) && Quiescent(su, s, f)
    requires su.payloadPermits > 0 && su.manifestPermits > 0 && i < |s.tasks| && HasDigest(s.tasks[i], e)
    ensures e in s.processed
  {
    assert TaskOk(su, s, s.tasks[i]);
    if i != f && Unfinished(s, i) {
      LeftWaits(su, items, s, og, f, d, i);
    }
    hide Quiescent, Inv, Traced, Ordered, Calls, CallsCover;
  }

  /** What the items ask for has been processed. */
  lemma ItemIsProcessed(su: Setup, items: seq<Call>, s: State, og: seq<Origin>, f: nat, d: Digest, i: nat, e: Digest)
    requires su.Valid() && Fine(su, items, s, og) && Frozen(su, s, f, d) && Quiescent(su, s, f)
    requires su.payloadPermits > 0 && su.manifestPermits > 0 && i < |items| && Wanted(su, items[i]) == Some(e)
    ensures e in s.processed
  {
    assert OriginOk(su, items, s, og, i) && TaskOk(su, s, s.tasks[i]);
    if !items[i].TagCall? {
      LeftIsProcessed(su, items, s, og, f, d, i, e);
    } else if Unfinished(s, i) {
      LeftWaits(su, items, s, og, f, d, i);
      var child := s.tasks[i].phase.child;
      LeftIsProcessed(su, items, s, og, f, d, child, e);
    } else {
      assert items[i].tag in s.dest.tags && items[i].tag !in su.initial.tags ==> s.dest.tags[items[i].tag] == e;
    }
  }

  /** A child of a copied object that has to be copied itself has been called for. */
  lemma ChildIsProcessed(su: Setup, items: seq<Call>, rank: Digest -> nat, s: State, og: seq<Origin>, f: nat,
                         d: Digest, p: Digest, e: Digest)
    requires Complete(su, items, rank) && Fine(su, items, s, og) && Frozen(su, s, f, d) && Quiescent(su, s, f)
    requires Missing(su, p) && Missing(su, e) && Edge(su.content, p, e) && p in s.processed && p != d
    ensures e in s.processed
  {
    if p in s.dest.objects {
      assert ObjectOk(su, s, p);
    } else {
      var j := StillCopied(su, s, p);
      assert TaskOk(su, s, s.tasks[j]) && TaskFine(su, s.tasks[j]);
      LeftWaits(su, items, s, og, f, d, j);
      StuckCalled(su, s, j, p, e);
      var id :| id in s.tasks[j].phase.made && id < |s.tasks| && HasDigest(s.tasks[id], e);
      LeftIsProcessed(su, items, s, og, f, d, id, e);
    }
  }

  lemma StuckCalled(su: Setup, s: State, j: nat, p: Digest, e: Digest)
    requires j < |s.tasks| && TaskOk(su, s, s.tasks[j]) && HasDigest(s.tasks[j], p) && s.tasks[j].phase.Waiting?
             && JustWaits(su, s, j)
    requires Late(su, s.tasks[j]) && p in su.content && WellTyped(su.content, su.content[p]) && InRange(su, e, false)
    requires Edge(su.content, p, e)
    ensures exists id :: id in s.tasks[j].phase.made && id < |s.tasks| && HasDigest(s.tasks[id], e)
  {
    var made, todo := s.tasks[j].phase.made, s.tasks[j].phase.todo;
    assert made != {};
    if todo != [] {
      LaterCallsAreBlobs(su, p);
    }
  }

  lemma LaterCallsAreBlobs(su: Setup, p: Digest)
    requires p in su.content && su.content[p].Layer? && WellTyped(su.content, su.content[p])
    ensures Calls(su.content[p]) != [] ==>
              forall k :: k in Calls(su.content[p])[1..] ==> !k.TagCall? && !InRange(su, k.digest, false)
  {
    var obj := su.content[p];
    var notes := DigestCalls(AnnotationBlobs(obj.annotations));
    if obj.manifest.Some? {
      assert Calls(obj)[1..] == notes;
    } else {
      assert Calls(obj) == notes;
    }
  }

  /** Whatever is missing and ranks above the shared digest has been processed. */
  lemma {:induction false} PathIsProcessed(su: Setup, items: seq<Call>, rank: Digest -> nat, s: State, og: seq<Origin>,
                                           f: nat, d: Digest, path: seq<Digest>)
    requires Complete(su, items, rank) && Fine(su, items, s, og) && Frozen(su, s, f, d) && Quiescent(su, s, f)
    requires Walk(su.content, path) && path[0] in Roots(su, items)
    requires Missing(su, path[|path| - 1]) && rank(path[|path| - 1]) > rank(d)
    ensures path[|path| - 1] in s.processed
    decreases |path|
  {
    hide Fine, Frozen, Quiescent, Missing, Wanted, Complete, Roots;
    var e := path[|path| - 1];
    if |path| == 1 {
      hide Walk;
      RootIsProcessed(su, items, rank, s, og, f, d, e);
    } else {
      var p := path[|path| - 2];
      PathGoesUp(su, items, rank, path);
      hide Walk, Edge;
      PathIsProcessed(su, items, rank, s, og, f, d, path[..|path| - 1]);
      ChildIsProcessed(su, items, rank, s, og, f, d, p, e);
    }
  }

  lemma RootIsProcessed(su: Setup, items: seq<Call>, rank: Digest -> nat, s: State, og: seq<Origin>, f: nat, d: Digest,
                        e: Digest)
    requires Complete(su, items, rank) && Fine(su, items, s, og) && Frozen(su, s, f, d) && Quiescent(su, s, f)
    requires e in Roots(su, items)
    ensures e in s.processed
  {
    hide Fine, Frozen, Quiescent, Wanted;
    var i :| 0 <= i < |items| && Wanted(su, items[i]).Some? && Wanted(su, items[i]).value == e;
    ItemIsProcessed(su, items, s, og, f, d, i, e);
  }

  lemma PathGoesUp(su: Setup, items: seq<Call>, rank: Digest -> nat, path: seq<Digest>)
    requires Complete(su, items, rank) && Walk(su.content, path) && |path| > 1 && Missing(su, path[|path| - 1])
    ensures Edge(su.content, path[|path| - 2], path[|path| - 1]) && Walk(su.content, path[..|path| - 1])
    ensures Missing(su, path[|path| - 2]) && rank(path[|path| - 2]) > rank(path[|path| - 1])
  {
    hide Missing;
    MissingParent(su, path[|path| - 2], path[|path| - 1]);
  }

  // ----- The writer goes ahead -----

  /** The frozen task has been called for by `w`. */
  predicate ClaimedFor(s: State, og: seq<Origin>, f: nat, w: Waiter) {
    f < |og| && WaiterOf(s, og, f) == w
  }

  /** An object that waits for the shared digest, without having called for the frozen task, is stored. */
  lemma ObjectGoesAhead(su: Setup, items: seq<Call>, rank: Digest -> nat, s: State, og: seq<Origin>, f: nat, d: Digest,
                        p: Digest, w: Waiter)
    requires Complete(su, items, rank) && Fine(su, items, s, og) && Frozen(su, s, f, d) && Quiescent(su, s, f)
    requires Asks(su, items, ByObject(p), d) && ClaimedFor(s, og, f, w) && w != ByObject(p)
    requires w.ByObject? ==> rank(p) <= rank(w.p)
    ensures p in s.dest.objects
  {
    assert rank(p) > rank(d);
    var path :| WalkTo(su.content, Roots(su, items), path, p);
    PathIsProcessed(su, items, rank, s, og, f, d, path);
    if p !in s.dest.objects {
      var j := StillCopied(su, s, p);
      assert Unfinished(s, j);
      LeftAboveFrozen(su, items, s, og, f, d, j);
      assert TaskOk(su, s, s.tasks[f]);
      NotAboveFrozen(su, items, rank, s, og, f, d, j, p, w);
    }
  }

  lemma NotAboveFrozen(su: Setup, items: seq<Call>, rank: Digest -> nat, s: State, og: seq<Origin>, f: nat, d: Digest,
                       j: nat, p: Digest, w: Waiter)
    requires Traced(su, items, s, og) && Ranked(su.content, rank) && f < |s.tasks| && HasDigest(s.tasks[f], d)
    requires j < |s.tasks| && HasDigest(s.tasks[j], p) && p != d
    requires ClaimedFor(s, og, f, w) && w != ByObject(p) && (w.ByObject? ==> rank(p) <= rank(w.p))
    ensures !Above(og, j, f)
  {
    hide OneClaim, WaitOk;
    assert OriginOk(su, items, s, og, f);
    if Above(og, j, f) {
      AboveIsBefore(og, j, f);
      var b := og[f].i;
      AboveIsBefore(og, j, b);
      if og[f].Child? {
        ObjectAbove(su, items, rank, s, og, j, b);
      } else {
        TagIsItem(su, items, s, og, b);
      }
    }
  }

  /** A tag that waits for the shared digest, without having called for the frozen task, is written. */
  lemma TagGoesAhead(su: Setup, items: seq<Call>, rank: Digest -> nat, s: State, og: seq<Origin>, f: nat, d: Digest,
                     i: nat, w: Waiter)
    requires Complete(su, items, rank) && Fine(su, items, s, og) && Frozen(su, s, f, d) && Quiescent(su, s, f)
    requires i < |items| && items[i].TagCall? && Wanted(su, items[i]) == Some(d) && ClaimedFor(s, og, f, w)
             && w != ByItem(i)
    ensures items[i].tag in s.dest.tags && s.dest.tags[items[i].tag] == d
  {
    assert OriginOk(su, items, s, og, i) && TaskOk(su, s, s.tasks[i]) && TaskOk(su, s, s.tasks[f]);
    if Unfinished(s, i) {
      LeftAboveFrozen(su, items, s, og, f, d, i);
      AboveIsBefore(og, i, f);
      TagAbove(su, items, rank, s, og, i, f);
    }
  }

  // ----- The race -----

  /** Task `f` has been called for by `w`, as far as the phases tell. */
  predicate CalledFor(items: seq<Call>, s: State, f: nat, w: Waiter, parent: nat) {
    match w
    case ByItem(i) =>
      && i < |items| && i < |s.tasks|
      && if items[i].TagCall? then s.tasks[i].phase.TagWaiting? && s.tasks[i].phase.child == f else f == i
    case ByObject(p) => WaitsFor(s, parent, p, f)
  }

  lemma CalledForMeans(su: Setup, items: seq<Call>, s: State, og: seq<Origin>, f: nat, w: Waiter, parent: nat)
    requires Fine(su, items, s, og) && CalledFor(items, s, f, w, parent)
    ensures ClaimedFor(s, og, f, w)
  {
    match w
    case ByItem(i) => assert WaitOk(s, og, i) && OriginOk(su, items, s, og, i);
    case ByObject(p) => assert WaitOk(s, og, parent) && TaskOk(su, s, s.tasks[parent]);
  }

  /** A schedule after which some task of the waiter is about to start on the digest. */
  lemma ReachStart(su: Setup, items: seq<Call>, rank: Digest -> nat, w: Waiter, d: Digest)
    returns (moves: seq<(nat, Outcome)>, f: nat, parent: nat)
    requires Complete(su, items, rank) && Missing(su, d) && Asks(su, items, w, d)
    ensures var s := Exec(su, Init(su, items), moves);
            Calm(moves) && AtStart(su, rank, s, f, d) && CalledFor(items, s, f, w, parent)
    ensures d in su.src.objects
  {
    parent := 0;
    if w.ByItem? {
      assert d in Roots(su, items);
      RootReachable(su.content, Roots(su, items), d);
      assert Available(su, d) && InSource(su, d);
      hide Reachable, AtStart, Exec, Complete;
      moves, f := StartItem(su, items, rank, w.i, d);
      ItemStays(su, items, moves);
    } else {
      ReachableStep(su.content, Roots(su, items), w.p, d);
      assert Available(su, d) && InSource(su, d);
      var path :| WalkTo(su.content, Roots(su, items), path, w.p);
      assert (path + [d])[..|path|] == path;
      assert Walk(su.content, path + [d]);
      hide Reachable, AtStart, Exec, Complete, Walk;
      moves, f, parent := Approach(su, items, rank, path + [d]);
    }
  }

  lemma {:induction false} ItemStays(su: Setup, items: seq<Call>, moves: seq<(nat, Outcome)>)
    ensures |items| <= |Exec(su, Init(su, items), moves).tasks|
  {
    TasksGrow(su, Init(su, items), moves);
  }

  lemma {:induction false} TasksGrow(su: Setup, s: State, moves: seq<(nat, Outcome)>)
    ensures |s.tasks| <= |Exec(su, s, moves).tasks|
    decreases |moves|
  {
    if moves != [] {
      StepMovesOne(su, s, moves[0].0, moves[0].1);
      hide Step;
      TasksGrow(su, Step(su, s, moves[0].0, moves[0].1), moves[1..]);
    }
  }

  lemma ClaimedForStays(s: State, og: seq<Origin>, s': State, og': seq<Origin>, f: nat, w: Waiter)
    requires ClaimedFor(s, og, f, w) && og <= og' && |s.tasks| <= |s'.tasks|
    requires og[f].Child? ==> og[f].i < |s.tasks|
    requires forall i :: 0 <= i < |s.tasks| ==> s'.tasks[i].call == s.tasks[i].call
    ensures ClaimedFor(s', og', f, w)
  {
    assert og'[f] == og[f];
  }

  /** One waiter has claimed the digest, and everything else has run as far as it can. */
  lemma Race(su: Setup, items: seq<Call>, rank: Digest -> nat, w: Waiter, d: Digest)
    returns (moves: seq<(nat, Outcome)>, og: seq<Origin>, f: nat)
    requires Complete(su, items, rank) && Missing(su, d) && Asks(su, items, w, d)
    ensures var s := Exec(su, Init(su, items), moves);
            Fine(su, items, s, og) && Frozen(su, s, f, d) && Quiescent(su, s, f) && ClaimedFor(s, og, f, w)
  {
    var init := Init(su, items);
    var parent;
    moves, f, parent := ReachStart(su, items, rank, w, d);
    var start := StartFine(su, items, rank);
    og := CalmStaysFine(su, items, rank, init, start, moves);
    var s := Exec(su, init, moves);
    CalledForMeans(su, items, s, og, f, w, parent);
    var claim := ClaimIt(su, rank, s, f, d);
    var og1 := CalmStaysFine(su, items, rank, s, og, claim);
    var claimed := Exec(su, s, claim);
    ClaimFreezes(su, rank, s, f, d);
    hide AtStart, Complete, Quiescent, Calm;
    var rest, og2 := RunOut(su, items, rank, claimed, og1, f, d);
    Together(su, items, s, og, claimed, rest, og2, f, w);
    hide Fine, Frozen, Exec;
    ExecAppend(su, init, moves, claim);
    ExecAppend(su, init, moves + claim, rest);
    moves, og := moves + claim + rest, og2;
  }

  lemma ClaimFreezes(su: Setup, rank: Digest -> nat, s: State, f: nat, d: Digest)
    requires AtStart(su, rank, s, f, d) && Missing(su, d)
    ensures Frozen(su, Claim(s, f, d), f, d) && |Claim(s, f, d).tasks| == |s.tasks|
    ensures forall i :: 0 <= i < |s.tasks| ==> Claim(s, f, d).tasks[i].call == s.tasks[i].call
  {
  }

  lemma Together(su: Setup, items: seq<Call>, s: State, og: seq<Origin>, claimed: State, rest: seq<(nat, Outcome)>,
                 og2: seq<Origin>, f: nat, w: Waiter)
    requires su.Valid() && Fine(su, items, s, og) && ClaimedFor(s, og, f, w) && f < |s.tasks| && og <= og2
    requires Inv(su, claimed) && |claimed.tasks| == |s.tasks| && forall i :: 0 <= i < |s.tasks| ==>
             claimed.tasks[i].call == s.tasks[i].call
    ensures ClaimedFor(Exec(su, claimed, rest), og2, f, w)
  {
    ExecKeepsInv(su, claimed, rest);
    assert OriginOk(su, items, s, og, f);
    hide Exec, Inv;
    ClaimedForStays(s, og, Exec(su, claimed, rest), og2, f, w);
  }

  /** With the writer and the other waiter in the right roles, the destination is left dangling. */
  lemma RaceBreaks(su: Setup, items: seq<Call>, rank: Digest -> nat, d: Digest, v: Waiter, w: Waiter)
    returns (schedule: seq<(nat, Outcome)>)
    requires Complete(su, items, rank) && Missing(su, d) && Asks(su, items, v, d) && Asks(su, items, w, d)
    requires Writes(items, v) && v != w && (v.ByObject? && w.ByObject? ==> rank(v.p) <= rank(w.p))
    ensures !Closed(Exec(su, Init(su, items), schedule).dest)
  {
    var og, f;
    schedule, og, f := Race(su, items, rank, w, d);
    var s := Exec(su, Init(su, items), schedule);
    match v
    case ByObject(p) =>
      ObjectGoesAhead(su, items, rank, s, og, f, d, p, w);
      assert ObjectOk(su, s, p);
      assert Edge(s.dest.objects, p, d);
    case ByItem(i) =>
      TagGoesAhead(su, items, rank, s, og, f, d, i, w);
  }

  /**
    Of a sync that can read everything it asks for, a closed destination is closed after
    every write under every interleaving, if and only if nothing that has to be copied is waited
    for by an object or a tag and asked for by anything else.
   */
  lemma StaysClosedIff(su: Setup, items: seq<Call>, rank: Digest -> nat)
    requires Complete(su, items, rank)
    ensures (forall schedule :: Closed(Exec(su, Init(su, items), schedule).dest)) <==> Unshared(su, items)
  {
    if Unshared(su, items) {
      forall schedule
        ensures Closed(Exec(su, Init(su, items), schedule).dest)
      {
        UnsharedStaysClosed(su, items, schedule);
      }
    } else {
      var d, v, w :| Missing(su, d) && Asks(su, items, v, d) && Asks(su, items, w, d) && Writes(items, v) && v != w;
      hide Complete, Asks, Closed;
      var schedule;
      if v.ByObject? && w.ByObject? && rank(v.p) > rank(w.p) {
        schedule := RaceBreaks(su, items, rank, d, w, v);
      } else {
        schedule := RaceBreaks(su, items, rank, d, v, w);
      }
      assert !Closed(Exec(su, Init(su, items), schedule).dest);
    }
  }

  // ----- The smallest race -----

  function TwoPlatforms(): Setup {
    var objects := map[0 := Layer(None, []), 1 := Platform([0]), 2 := Platform([0])];
    Setup(Repo(objects, {}, map[]), Repo(map[], {}, map[]), LatestTags, objects, 1, 1)
  }

  lemma TwoPlatformsEdges(d: Digest, c: Digest)
    ensures Edge(TwoPlatforms().content, d, c) <==> (d == 1 || d == 2) && c == 0
  {
  }

  lemma TwoPlatformsReach(roots: set<Digest>, d: Digest)
    requires roots == {1, 2}
    ensures Reachable(TwoPlatforms().content, roots, d) ==> InSource(TwoPlatforms(), d)
    ensures d in roots ==> Reachable(TwoPlatforms().content, roots, d)
  {
    var su := TwoPlatforms();
    if d in roots {
      RootReachable(su.content, roots, d);
    }
    if Reachable(su.content, roots, d) {
      forall p, c | Edge(su.content, p, c)
        ensures c == 0
      {
        TwoPlatformsEdges(p, c);
      }
      CoverHoldsReachable(su.content, roots, {0, 1, 2}, d);
    }
  }

  lemma TwoPlatformsRoots(items: seq<Call>)
    requires items == [DigestCall(1), DigestCall(2)]
    ensures Roots(TwoPlatforms(), items) == {1, 2}
  {
    var su := TwoPlatforms();
    assert Wanted(su, items[0]) == Some(1) && Wanted(su, items[1]) == Some(2);
  }

  lemma TwoPlatformsComplete(items: seq<Call>, rank: Digest -> nat)
    requires items == [DigestCall(1), DigestCall(2)] && rank(0) < rank(1) && rank(0) < rank(2)
    ensures Complete(TwoPlatforms(), items, rank)
  {
    var su := TwoPlatforms();
    TwoPlatformsRoots(items);
    forall d
      ensures Reachable(su.content, {1, 2}, d) ==> Available(su, d) && ManifestThere(su, d)
    {
      TwoPlatformsReach({1, 2}, d);
    }
    forall d, c | Edge(su.content, d, c)
      ensures rank(c) < rank(d)
    {
      TwoPlatformsEdges(d, c);
    }
    hide Reachable, Edge, Roots;
  }

  lemma BothAsk(items: seq<Call>)
    requires items == [DigestCall(1), DigestCall(2)]
    ensures Missing(TwoPlatforms(), 0)
    ensures Asks(TwoPlatforms(), items, ByObject(1), 0) && Asks(TwoPlatforms(), items, ByObject(2), 0)
  {
    TwoPlatformsRoots(items);
    TwoPlatformsReach({1, 2}, 1);
    TwoPlatformsReach({1, 2}, 2);
    TwoPlatformsEdges(1, 0);
    TwoPlatformsEdges(2, 0);
    hide Reachable, Edge, Roots;
  }

  /** Two platforms share a layer: some interleaving stores one of them before the layer. */
  lemma ParentBeforeSharedChild() returns (schedule: seq<(nat, Outcome)>)
    ensures var su := TwoPlatforms();
            Closed(su.initial) && !Closed(Exec(su, Init(su, [DigestCall(1), DigestCall(2)]), schedule).dest)
  {
    var su, items := TwoPlatforms(), [DigestCall(1), DigestCall(2)];
    var rank: Digest -> nat := (d: Digest) => d;
    TwoPlatformsComplete(items, rank);
    BothAsk(items);
    hide Complete, Asks, Exec;
    schedule := RaceBreaks(su, items, rank, 0, ByObject(1), ByObject(2));
  }
}
