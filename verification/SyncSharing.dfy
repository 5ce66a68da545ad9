/**
  When a concurrent sync keeps the destination closed after every single write: exactly when
  nothing that has to be copied is waited for twice.
 */
module SyncSharing {
  import opened Graph
  import opened SyncProtocol
  import S = SequentialSync

  // ----- Who asks for what -----

  /** What an item of an environment asks for; a tag that is there and trusted asks for nothing. */
  function Wanted(su: Setup, call: Call): Option<Digest> {
    match call
    case TagCall(tag) =>
      if su.policy.CheckExistingTags() && tag in su.initial.tags then None
      else if tag in su.src.tags then Some(su.src.tags[tag])
      else None
    case _ => Some(call.digest)
  }

  function Roots(su: Setup, items: seq<Call>): set<Digest> {
    set i | 0 <= i < |items| && Wanted(su, items[i]).Some? :: Wanted(su, items[i]).value
  }

  /** Something that waits for a digest to be synced before it goes on. */
  datatype Waiter = ByItem(i: nat) | ByObject(p: Digest)

  /** The object has to be copied. */
  predicate Missing(su: Setup, d: Digest) {
    d in su.content && !su.content[d].Blob? && d !in su.initial.objects
  }

  ghost predicate Asks(su: Setup, items: seq<Call>, w: Waiter, d: Digest) {
    match w
    case ByItem(i) => i < |items| && Wanted(su, items[i]) == Some(d)
    case ByObject(p) => Missing(su, p) && Reachable(su.content, Roots(su, items), p) && Edge(su.content, p, d)
  }

  /** Objects and tags are written once what they wait for has returned. */
  predicate Writes(items: seq<Call>, w: Waiter) {
    w.ByObject? || (w.i < |items| && items[w.i].TagCall?)
  }

  /** Whatever an object or a tag waits for, if it has to be copied, nothing else asks for. */
  ghost predicate Unshared(su: Setup, items: seq<Call>) {
    forall d, v, w :: Missing(su, d) && Asks(su, items, v, d) && Asks(su, items, w, d) && Writes(items, v) ==> v == w
  }

  // ----- Where a task comes from -----

  datatype Origin =
    | Item           // an item of the environment
    | Target(i: nat) // called for by the tag item i
    | Child(i: nat)  // called for by task i, for its object

  ghost predicate OriginOk(su: Setup, items: seq<Call>, s: State, og: seq<Origin>, j: nat)
    requires j < |s.tasks| == |og|
  {
    match og[j]
    case Item => j < |items| && s.tasks[j].call == items[j]
    case Target(i) =>
      && i < j && i < |items| && items[i].TagCall? && !s.tasks[i].phase.Start?
      && Wanted(su, items[i]).Some? && s.tasks[j].call == DigestCall(Wanted(su, items[i]).value)
    case Child(i) =>
      && i < j && !s.tasks[i].call.TagCall?
      && var p := s.tasks[i].call.digest;
         InRange(su, p, false) && p in s.processed && s.tasks[j].call in Calls(su.content[p])
  }

  /** What a waiting task waits for is what it has called for. */
  ghost predicate WaitOk(s: State, og: seq<Origin>, i: nat)
    requires i < |s.tasks| == |og|
  {
    match s.tasks[i].phase
    case Waiting(_, _, made) =>
      && (forall j :: j in made ==> j < |og| && og[j] == Child(i))
      && (forall j :: 0 <= j < |og| && og[j] == Child(i) ==> j in made)
    case TagWaiting(_, _, child) =>
      child < |og| && og[child] == Target(i) && forall j :: 0 <= j < |og| && og[j] == Target(i) ==> j == child
    case Claimed(_) => forall j :: 0 <= j < |og| ==> og[j] != Child(i)
    case _ => true
  }

  predicate Active(t: Task) { t.phase.Claimed? || t.phase.Waiting? }

  /** The task has put the digest in `processed` to work on it, or it has called for a child of it. */
  ghost predicate Claimer(s: State, og: seq<Origin>, i: nat, d: Digest) {
    && i < |s.tasks|
    && ((Active(s.tasks[i]) && s.tasks[i].phase.d == d) ||
        (HasDigest(s.tasks[i], d) && exists j :: 0 <= j < |og| && og[j] == Child(i)))
  }

  /** A digest is claimed once. */
  ghost predicate OneClaim(s: State, og: seq<Origin>) {
    forall d, a, b :: Claimer(s, og, a, d) && Claimer(s, og, b, d) ==> a == b
  }

  ghost predicate Traced(su: Setup, items: seq<Call>, s: State, og: seq<Origin>) {
    && |items| <= |s.tasks| == |og|
    && (forall j :: 0 <= j < |og| ==> OriginOk(su, items, s, og, j))
    && (forall j :: 0 <= j < |og| ==> (og[j] == Item <==> j < |items|))
    && (forall i :: 0 <= i < |og| ==> WaitOk(s, og, i))
    && OneClaim(s, og)
    && su.initial.tags.Keys <= s.dest.tags.Keys
  }

  lemma StartTraced(su: Setup, items: seq<Call>) returns (og: seq<Origin>)
    ensures Traced(su, items, Init(su, items), og)
  {
    og := seq(|items|, _ => Item);
  }

  /** What every claimer has done: the digest is processed. */
  lemma ClaimedIsProcessed(su: Setup, items: seq<Call>, s: State, og: seq<Origin>, i: nat, d: Digest)
    requires Inv(su, s) && Traced(su, items, s, og) && Claimer(s, og, i, d)
    ensures d in s.processed && HasDigest(s.tasks[i], d)
  {
    assert TaskOk(su, s, s.tasks[i]);
    if !Active(s.tasks[i]) {
      var j :| 0 <= j < |og| && og[j] == Child(i);
      assert OriginOk(su, items, s, og, j);
    }
  }

  // ----- Every step keeps the trace -----

  /** The origin of a task that the step of task `i` starts. */
  function NewOrigins(s: State, s': State, i: nat): seq<Origin>
    requires i < |s.tasks|
  {
    if |s'.tasks| <= |s.tasks| then []
    else if s.tasks[i].call.TagCall? then [Target(i)]
    else [Child(i)]
  }

  /** What the moving task has to do with the tasks that it waits for. */
  ghost predicate MovesTraced(su: Setup, items: seq<Call>, s: State, og: seq<Origin>, s': State, i: nat)
    requires i < |s.tasks| == |og|
  {
    var og' := og + NewOrigins(s, s', i);
    && OneMoves(s, s', i) && i < |s'.tasks| && WaitOk(s', og', i)
    && (s'.tasks[i].phase.Start? ==> s.tasks[i].phase.Start?)
    && (|s'.tasks| > |s.tasks| ==> OriginOk(su, items, s', og', |s.tasks|))
  }

  lemma StartOrigins(su: Setup, items: seq<Call>, s: State, og: seq<Origin>, i: nat)
    requires su.Valid() && i < |s.tasks| && s.tasks[i].phase.Start? && Traced(su, items, s, og)
    ensures MovesTraced(su, items, s, og, StepStart(su, s, i), i)
  {
    hide OneClaim;
    var s' := StepStart(su, s, i);
    assert OriginOk(su, items, s, og, i);
    if s.tasks[i].call.TagCall? && s'.tasks[i].phase.TagWaiting? {
      assert og[i] == Item;
      forall j | 0 <= j < |og|
        ensures og[j] != Target(i)
      {
        assert OriginOk(su, items, s, og, j);
      }
    }
  }

  lemma SpawnOrigins(su: Setup, items: seq<Call>, s: State, og: seq<Origin>, i: nat)
    requires su.Valid() && i < |s.tasks| && s.tasks[i].phase.Waiting? && TaskOk(su, s, s.tasks[i])
             && Traced(su, items, s, og)
    ensures var Waiting(d, todo, made) := s.tasks[i].phase;
            MovesTraced(su, items, s, og, StepWaiting(su, s, i, d, todo, made), i)
  {
    hide OneClaim, CallsCover;
    assert WaitOk(s, og, i);
    var Waiting(d, todo, made) := s.tasks[i].phase;
    var s' := StepWaiting(su, s, i, d, todo, made);
    if todo != [] {
      assert todo[0] in Calls(su.content[d]);
      hide Traced;
      if s' != s {
        SpawnWaits(s, og, s', i);
        hide WaitOk;
        SpawnedFrom(su, items, s', og, i, d);
      }
    } else {
      hide Traced, Calls, OriginOk;
    }
  }

  lemma SpawnedFrom(su: Setup, items: seq<Call>, s: State, og: seq<Origin>, i: nat, d: Digest)
    requires i < |og| && |s.tasks| == |og| + 1 && !s.tasks[i].call.TagCall? && s.tasks[i].call.digest == d
    requires InRange(su, d, false) && d in s.processed && s.tasks[|og|].call in Calls(su.content[d])
    ensures OriginOk(su, items, s, og + [Child(i)], |og|)
  {
    hide Calls;
  }

  /** What a task has just called for is added to what it waits for. */
  lemma SpawnWaits(s: State, og: seq<Origin>, s': State, i: nat)
    requires i < |s.tasks| == |og| && |s'.tasks| == |s.tasks| + 1 && WaitOk(s, og, i)
    requires s.tasks[i].phase.Waiting? && s'.tasks[i].phase.Waiting?
             && s'.tasks[i].phase.made == s.tasks[i].phase.made + {|s.tasks|}
    ensures WaitOk(s', og + [Child(i)], i)
  {
    var og' := og + [Child(i)];
    assert forall j :: 0 <= j < |og| ==> og'[j] == og[j];
  }

  lemma BeginOrigins(su: Setup, items: seq<Call>, s: State, og: seq<Origin>, i: nat)
    requires su.Valid() && i < |s.tasks| && s.tasks[i].phase.Begin? && TaskOk(su, s, s.tasks[i])
             && Traced(su, items, s, og)
    ensures MovesTraced(su, items, s, og, StepBegin(su, s, i, s.tasks[i].phase.d), i)
  {
    hide OneClaim, CallsCover;
    var s' := StepBegin(su, s, i, s.tasks[i].phase.d);
    if s'.tasks[i].phase.Claimed? {
      forall j | 0 <= j < |og|
        ensures og[j] != Child(i)
      {
        assert OriginOk(su, items, s, og, j);
      }
    }
  }

  lemma OtherOrigins(su: Setup, items: seq<Call>, s: State, og: seq<Origin>, i: nat, outcome: Outcome)
    requires su.Valid() && i < |s.tasks| && TaskOk(su, s, s.tasks[i]) && Traced(su, items, s, og)
    requires outcome.Fails? || !(s.tasks[i].phase.Start? || s.tasks[i].phase.Waiting? || s.tasks[i].phase.Begin?)
    ensures MovesTraced(su, items, s, og, Step(su, s, i, outcome), i)
  {
    hide OneClaim, CallsCover, ManifestsHeld, PayloadsHeld, Calls;
    assert WaitOk(s, og, i);
  }

  lemma MovedOrigins(su: Setup, items: seq<Call>, s: State, og: seq<Origin>, i: nat, outcome: Outcome)
    requires su.Valid() && i < |s.tasks| && TaskOk(su, s, s.tasks[i]) && Traced(su, items, s, og)
    ensures MovesTraced(su, items, s, og, Step(su, s, i, outcome), i)
  {
    hide Traced, TaskOk, MovesTraced;
    if outcome.Fails? {
      OtherOrigins(su, items, s, og, i, outcome);
    } else {
      match s.tasks[i].phase
      case Start => StartOrigins(su, items, s, og, i);
      case Waiting(_, _, _) => SpawnOrigins(su, items, s, og, i);
      case Begin(_) => BeginOrigins(su, items, s, og, i);
      case _ => OtherOrigins(su, items, s, og, i, outcome);
    }
  }

  lemma OthersStayTraced(su: Setup, items: seq<Call>, s: State, og: seq<Origin>, s': State, i: nat, j: nat)
    requires Traced(su, items, s, og) && i < |s.tasks| && MovesTraced(su, items, s, og, s', i) && Grows(s, s')
    requires j < |s.tasks|
    ensures var og' := og + NewOrigins(s, s', i);
            |og'| == |s'.tasks| && OriginOk(su, items, s', og', j) && (j != i ==> WaitOk(s', og', j))
  {
    hide OneClaim, Calls;
    var og' := og + NewOrigins(s, s', i);
    assert OriginOk(su, items, s, og, j) && WaitOk(s, og, j) && og'[j] == og[j];
    if j != i {
      WaitStays(s, og, s', og', j);
    }
  }

  /** New tasks that somebody else has called for do not matter. */
  lemma WaitStays(s: State, og: seq<Origin>, s': State, og': seq<Origin>, j: nat)
    requires j < |s.tasks| == |og| && |og'| == |s'.tasks| && og <= og' && s'.tasks[j] == s.tasks[j]
    requires forall x :: |og| <= x < |og'| ==> og'[x] != Child(j) && og'[x] != Target(j)
    requires WaitOk(s, og, j)
    ensures WaitOk(s', og', j)
  {
    assert forall x :: 0 <= x < |og| ==> og'[x] == og[x];
  }

  /** Only a digest that nobody has processed is claimed. */
  lemma MovedClaims(su: Setup, s: State, i: nat, outcome: Outcome, d: Digest)
    requires i < |s.tasks| && TaskOk(su, s, s.tasks[i])
    ensures var s' := Step(su, s, i, outcome);
            && i < |s'.tasks|
            && (Active(s'.tasks[i]) && s'.tasks[i].phase.d == d ==>
                  (Active(s.tasks[i]) && s.tasks[i].phase.d == d) || d !in s.processed)
            && (|s'.tasks| > |s.tasks| && !s.tasks[i].call.TagCall? ==> s.tasks[i].phase.Waiting?)
  {
    hide CallsCover, Calls, ManifestsHeld, PayloadsHeld;
  }

  lemma ClaimsStay(su: Setup, items: seq<Call>, s: State, og: seq<Origin>, i: nat, outcome: Outcome, a: nat, d: Digest)
    requires Inv(su, s) && Traced(su, items, s, og) && i < |s.tasks|
    requires var s' := Step(su, s, i, outcome); Claimer(s', og + NewOrigins(s, s', i), a, d)
    ensures Claimer(s, og, a, d) || (a == i && d !in s.processed)
  {
    var s' := Step(su, s, i, outcome);
    var og' := og + NewOrigins(s, s', i);
    assert TaskOk(su, s, s.tasks[i]);
    forall j | 0 <= j < |og|
      ensures og[j].Child? ==> og[j].i < |s.tasks|
    {
      assert OriginOk(su, items, s, og, j);
    }
    hide Inv, Traced, Step;
    StepMovesOne(su, s, i, outcome);
    StepGrows(su, s, i, outcome);
    MovedClaims(su, s, i, outcome, d);
    hide TaskOk;
    if !(Active(s'.tasks[a]) && s'.tasks[a].phase.d == d) {
      var j :| 0 <= j < |og'| && og'[j] == Child(a);
      assert a < |s.tasks|;
      if j < |og| {
        assert og[j] == Child(a);
      } else {
        CallerHasDigest(su, s, i, d);
      }
    }
  }

  lemma CallerHasDigest(su: Setup, s: State, i: nat, d: Digest)
    requires i < |s.tasks| && TaskOk(su, s, s.tasks[i]) && s.tasks[i].phase.Waiting? && HasDigest(s.tasks[i], d)
    ensures s.tasks[i].phase.d == d
  {
  }

  lemma StepTraced(su: Setup, items: seq<Call>, s: State, og: seq<Origin>, i: nat, outcome: Outcome)
    returns (og': seq<Origin>)
    requires su.Valid() && Inv(su, s) && Traced(su, items, s, og)
    ensures og <= og' && Traced(su, items, Step(su, s, i, outcome), og')
  {
    if i >= |s.tasks| {
      return og;
    }
    var s' := Step(su, s, i, outcome);
    og' := og + NewOrigins(s, s', i);
    OriginsAfter(su, items, s, og, i, outcome);
    OneClaimAfter(su, items, s, og, i, outcome);
    StepGrows(su, s, i, outcome);
    hide Step, WaitOk, OriginOk, OneClaim, Inv;
  }

  lemma OriginsAfter(su: Setup, items: seq<Call>, s: State, og: seq<Origin>, i: nat, outcome: Outcome)
    requires su.Valid() && Inv(su, s) && Traced(su, items, s, og) && i < |s.tasks|
    ensures var s' := Step(su, s, i, outcome);
            var og' := og + NewOrigins(s, s', i);
            && |s.tasks| <= |og'| == |s'.tasks|
            && (forall j :: 0 <= j < |og'| ==> OriginOk(su, items, s', og', j) && WaitOk(s', og', j))
            && (forall j :: |og| <= j < |og'| ==> og'[j] != Item)
  {
    var s' := Step(su, s, i, outcome);
    var og' := og + NewOrigins(s, s', i);
    assert TaskOk(su, s, s.tasks[i]);
    hide Inv, TaskOk, Step, WaitOk, OriginOk, OneClaim;
    MovedOrigins(su, items, s, og, i, outcome);
    NewTaskWaits(s, og, s', og', i);
    StepGrows(su, s, i, outcome);
    hide Grows;
    forall j | 0 <= j < |og'|
      ensures OriginOk(su, items, s', og', j) && WaitOk(s', og', j)
    {
      OriginAfter(su, items, s, og, s', i, j);
    }
  }

  lemma OriginAfter(su: Setup, items: seq<Call>, s: State, og: seq<Origin>, s': State, i: nat, j: nat)
    requires Traced(su, items, s, og) && i < |s.tasks| && MovesTraced(su, items, s, og, s', i) && Grows(s, s')
    requires j < |og + NewOrigins(s, s', i)| == |s'.tasks|
    ensures var og' := og + NewOrigins(s, s', i); OriginOk(su, items, s', og', j) && WaitOk(s', og', j)
  {
    hide WaitOk, OriginOk, OneClaim;
    NewTaskWaits(s, og, s', og + NewOrigins(s, s', i), i);
    if j < |og| {
      OthersStayTraced(su, items, s, og, s', i, j);
    }
  }

  lemma OneClaimAfter(su: Setup, items: seq<Call>, s: State, og: seq<Origin>, i: nat, outcome: Outcome)
    requires su.Valid() && Inv(su, s) && Traced(su, items, s, og) && i < |s.tasks|
    ensures var s' := Step(su, s, i, outcome); OneClaim(s', og + NewOrigins(s, s', i))
  {
    hide Step, Claimer, Inv, Traced;
    var s' := Step(su, s, i, outcome);
    var og' := og + NewOrigins(s, s', i);
    forall d, a, b | Claimer(s', og', a, d) && Claimer(s', og', b, d)
      ensures a == b
    {
      SameClaimer(su, items, s, og, i, outcome, a, b, d);
    }
  }

  lemma NewTaskWaits(s: State, og: seq<Origin>, s': State, og': seq<Origin>, i: nat)
    requires i < |s.tasks| == |og| && OneMoves(s, s', i) && og' == og + NewOrigins(s, s', i)
    ensures |og'| == |s'.tasks|
    ensures |s'.tasks| > |s.tasks| ==> WaitOk(s', og', |s.tasks|) && og'[|s.tasks|] != Item
  {
  }

  lemma SameClaimer(su: Setup, items: seq<Call>, s: State, og: seq<Origin>, i: nat, outcome: Outcome, a: nat, b: nat,
                    d: Digest)
    requires Inv(su, s) && Traced(su, items, s, og) && i < |s.tasks|
    requires var s' := Step(su, s, i, outcome);
             var og' := og + NewOrigins(s, s', i);
             Claimer(s', og', a, d) && Claimer(s', og', b, d)
    ensures a == b
  {
    hide Step, Claimer;
    ClaimsStay(su, items, s, og, i, outcome, a, d);
    ClaimsStay(su, items, s, og, i, outcome, b, d);
    if Claimer(s, og, a, d) {
      ClaimedIsProcessed(su, items, s, og, a, d);
    }
    if Claimer(s, og, b, d) {
      ClaimedIsProcessed(su, items, s, og, b, d);
    }
  }

  lemma {:induction false} ExecTraced(su: Setup, items: seq<Call>, s: State, og: seq<Origin>,
                                      schedule: seq<(nat, Outcome)>)
    returns (og': seq<Origin>)
    requires su.Valid() && Inv(su, s) && Traced(su, items, s, og)
    ensures og <= og' && Inv(su, Exec(su, s, schedule)) && Traced(su, items, Exec(su, s, schedule), og')
    decreases |schedule|
  {
    og' := og;
    if schedule != [] {
      hide Inv, Step, Traced;
      og' := StepTraced(su, items, s, og, schedule[0].0, schedule[0].1);
      StepKeepsInv(su, s, schedule[0].0, schedule[0].1);
      og' := ExecTraced(su, items, Step(su, s, schedule[0].0, schedule[0].1), og', schedule[1..]);
    }
  }

  // ----- Who waits for a task -----

  lemma {:induction false} TaskReachable(su: Setup, items: seq<Call>, s: State, og: seq<Origin>, j: nat)
    requires Traced(su, items, s, og) && TopLevel(items) && j < |s.tasks| && !s.tasks[j].call.TagCall?
    ensures Reachable(su.content, Roots(su, items), s.tasks[j].call.digest)
    decreases j
  {
    hide OneClaim, WaitOk, Reachable;
    assert OriginOk(su, items, s, og, j);
    var d := s.tasks[j].call.digest;
    match og[j]
    case Item =>
      assert Wanted(su, items[j]) == Some(d);
      RootReachable(su.content, Roots(su, items), d);
    case Target(i) =>
      assert Wanted(su, items[i]) == Some(d);
      RootReachable(su.content, Roots(su, items), d);
    case Child(i) =>
      TaskReachable(su, items, s, og, i);
      ReachableStep(su.content, Roots(su, items), s.tasks[i].call.digest, d);
  }

  function WaiterOf(s: State, og: seq<Origin>, j: nat): Waiter
    requires j < |og|
  {
    match og[j]
    case Item => ByItem(j)
    case Target(i) => ByItem(i)
    case Child(i) =>
      if i < |s.tasks| && !s.tasks[i].call.TagCall? then ByObject(s.tasks[i].call.digest) else ByItem(j)
  }

  /** In a closed destination, whatever refers to something missing is missing itself. */
  lemma MissingParent(su: Setup, p: Digest, c: Digest)
    requires su.Valid() && Closed(su.initial) && Missing(su, c) && InRange(su, p, false) && Edge(su.content, p, c)
    ensures Missing(su, p)
  {
    if p in su.initial.objects {
      assert Edge(su.initial.objects, p, c);
    }
  }

  lemma WaiterAsks(su: Setup, items: seq<Call>, s: State, og: seq<Origin>, j: nat, c: Digest)
    requires su.Valid() && Traced(su, items, s, og) && TopLevel(items) && Closed(su.initial)
    requires j < |s.tasks| && HasDigest(s.tasks[j], c) && Missing(su, c)
    ensures Asks(su, items, WaiterOf(s, og, j), c)
  {
    hide OneClaim, WaitOk, Reachable;
    assert OriginOk(su, items, s, og, j);
    if og[j].Child? {
      var p := s.tasks[og[j].i].call.digest;
      assert Edge(su.content, p, c);
      MissingParent(su, p, c);
      TaskReachable(su, items, s, og, og[j].i);
    }
  }

  /** What is processed and not stored is claimed by a task that has not returned. */
  lemma StillCopied(su: Setup, s: State, c: Digest) returns (j: nat)
    requires Inv(su, s) && c in s.processed && c !in s.dest.objects
    ensures j < |s.tasks| && Claims(su, s.tasks[j], c) && Missing(su, c)
  {
    assert InFlight(su, s, c);
    j :| 0 <= j < |s.tasks| && Claims(su, s.tasks[j], c);
  }

  /** When all calls of an object have returned, its children are stored. */
  lemma ChildrenStored(su: Setup, items: seq<Call>, s: State, og: seq<Origin>, i: nat, p: Digest, made: set<nat>,
                       c: Digest)
    requires su.Valid() && Inv(su, s) && Traced(su, items, s, og) && TopLevel(items) && Closed(su.initial)
             && Unshared(su, items)
    requires i < |s.tasks| && s.tasks[i].phase == Waiting(p, [], made) && AllReturned(s, made) && Edge(su.content, p, c)
    ensures c in s.dest.objects
  {
    assert TaskOk(su, s, s.tasks[i]);
    AllChildrenProcessed(su, s, p, made);
    hide Inv, TaskOk, Traced, CallsCover, Reachable;
    if c !in s.dest.objects {
      var j := StillCopied(su, s, c);
      MissingParent(su, p, c);
      TaskReachable(su, items, s, og, i);
      WaiterAsks(su, items, s, og, j, c);
      assert Asks(su, items, ByObject(p), c) && Writes(items, ByObject(p));
      SameObject(su, items, s, og, i, j, p, made);
    }
  }

  lemma SameObject(su: Setup, items: seq<Call>, s: State, og: seq<Origin>, i: nat, j: nat, p: Digest, made: set<nat>)
    requires Traced(su, items, s, og) && i < |s.tasks| && s.tasks[i].phase == Waiting(p, [], made)
    requires j < |s.tasks| && WaiterOf(s, og, j) == ByObject(p)
    ensures j in made
  {
    assert OriginOk(su, items, s, og, j) && WaitOk(s, og, i);
    assert Claimer(s, og, og[j].i, p) && Claimer(s, og, i, p);
  }

  lemma SameTag(su: Setup, items: seq<Call>, s: State, og: seq<Origin>, i: nat, j: nat, child: nat)
    requires Traced(su, items, s, og) && i < |s.tasks| && s.tasks[i].phase.TagWaiting?
             && s.tasks[i].phase.child == child
    requires s.tasks[i].call.TagCall?
    requires j < |s.tasks| && !s.tasks[j].call.TagCall? && WaiterOf(s, og, j) == ByItem(i)
    ensures j == child
  {
    assert OriginOk(su, items, s, og, j) && WaitOk(s, og, i);
  }

  /** When the call of a tag has returned, its target is stored. */
  lemma TargetStored(su: Setup, items: seq<Call>, s: State, og: seq<Origin>, i: nat, tag: string, c: Digest, child: nat)
    requires su.Valid() && Inv(su, s) && Traced(su, items, s, og) && TopLevel(items) && Closed(su.initial)
             && Unshared(su, items)
    requires i < |s.tasks| && s.tasks[i].phase == TagWaiting(tag, c, child) && child < |s.tasks|
             && s.tasks[child].phase.Returned?
    ensures c in s.dest.objects
  {
    assert TaskOk(su, s, s.tasks[i]) && TaskOk(su, s, s.tasks[child]);
    assert WaitOk(s, og, i) && OriginOk(su, items, s, og, child) && OriginOk(su, items, s, og, i);
    assert Asks(su, items, ByItem(i), c) && Writes(items, ByItem(i));
    hide Inv, TaskOk, Traced, Reachable;
    if c !in s.dest.objects {
      var j := StillCopied(su, s, c);
      WaiterAsks(su, items, s, og, j, c);
      SameTag(su, items, s, og, i, j, child);
    }
  }

  // ----- The destination stays closed -----

  /** What a step writes to the destination. */
  datatype Write = Nothing | Payload(p: Digest) | Stores(d: Digest) | Tags(tag: string, target: Digest)

  function WriteOf(su: Setup, s: State, i: nat, outcome: Outcome): Write {
    if i >= |s.tasks| || outcome.Fails? then Nothing
    else
      match s.tasks[i].phase
      case Waiting(d, todo, made) => if todo == [] && AllReturned(s, made) then Stores(d) else Nothing
      case Copying(d) =>
        if d !in su.src.payloads then Nothing
        else if outcome.DeliversOther? then Payload(outcome.payload)
        else Payload(d)
      case BlobNext(d) => Stores(d)
      case TagWaiting(tag, target, child) =>
        if child < |s.tasks| && s.tasks[child].phase.Returned? then Tags(tag, target) else Nothing
      case _ => Nothing
  }

  lemma StepWrites(su: Setup, s: State, i: nat, outcome: Outcome)
    ensures Step(su, s, i, outcome).dest ==
            match WriteOf(su, s, i, outcome)
            case Nothing => s.dest
            case Payload(p) => S.WithPayload(s.dest, p)
            case Stores(d) => S.WithObject(s.dest, d, su.ObjectOf(d))
            case Tags(tag, target) => S.WithTag(s.dest, tag, target)
  {
    hide Calls, ManifestsHeld, PayloadsHeld;
  }

  lemma StepStaysClosed(su: Setup, items: seq<Call>, s: State, og: seq<Origin>, i: nat, outcome: Outcome)
    requires su.Valid() && Inv(su, s) && Traced(su, items, s, og) && TopLevel(items) && Closed(su.initial)
             && Unshared(su, items)
    requires Closed(s.dest)
    ensures Closed(Step(su, s, i, outcome).dest)
  {
    StepWrites(su, s, i, outcome);
    hide Step, Traced, Unshared, Reachable, CallsCover;
    match WriteOf(su, s, i, outcome)
    case Nothing =>
    case Payload(p) => assert forall d :: d in s.dest.objects ==> Holds(s.dest, d);
    case Tags(tag, target) =>
      TargetStored(su, items, s, og, i, tag, target, s.tasks[i].phase.child);
    case Stores(d) =>
      assert TaskOk(su, s, s.tasks[i]);
      forall c | c in ChildObjects(su.content[d])
        ensures c in s.dest.objects
      {
        if s.tasks[i].phase.Waiting? {
          ChildrenStored(su, items, s, og, i, d, s.tasks[i].phase.made, c);
        }
      }
      DestWithin(su, s);
      S.StillClosed(s.dest, su.content, d);
  }

  lemma DestWithin(su: Setup, s: State)
    requires Inv(su, s)
    ensures Within(s.dest.objects, su.content)
  {
    forall d | d in s.dest.objects
      ensures d in su.content && s.dest.objects[d] == su.content[d]
    {
      assert ObjectOk(su, s, d);
    }
  }

  lemma {:induction false} ExecStaysClosed(su: Setup, items: seq<Call>, s: State, og: seq<Origin>,
                                           schedule: seq<(nat, Outcome)>)
    requires su.Valid() && Inv(su, s) && Traced(su, items, s, og) && TopLevel(items) && Closed(su.initial)
             && Unshared(su, items)
    requires Closed(s.dest)
    ensures Closed(Exec(su, s, schedule).dest)
    decreases |schedule|
  {
    if schedule != [] {
      hide Inv, Step, Traced, Unshared, Closed;
      StepStaysClosed(su, items, s, og, schedule[0].0, schedule[0].1);
      var og' := StepTraced(su, items, s, og, schedule[0].0, schedule[0].1);
      StepKeepsInv(su, s, schedule[0].0, schedule[0].1);
      ExecStaysClosed(su, items, Step(su, s, schedule[0].0, schedule[0].1), og', schedule[1..]);
    }
  }

  /**
    If nothing that has to be copied is waited for by an object or a tag and asked for by anything
    else, a closed destination is closed after every single write of a concurrent sync, under
    every interleaving and every pattern of failures.
   */
  lemma UnsharedStaysClosed(su: Setup, items: seq<Call>, schedule: seq<(nat, Outcome)>)
    requires su.Valid() && TopLevel(items) && Closed(su.initial) && Unshared(su, items)
    ensures Closed(Exec(su, Init(su, items), schedule).dest)
  {
    var og := StartTraced(su, items);
    ExecStaysClosed(su, items, Init(su, items), og, schedule);
  }
}
