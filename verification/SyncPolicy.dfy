/**
  What each policy of a sync means, on every schedule: which tags it updates, which objects it descends
  into, which payloads it copies, and where everything that it stores comes from.
 */
module SyncPolicy {
  import opened Graph
  import opened SyncProtocol

  // ----- What every moment of a sync keeps -----

  /** The object can be read: from the source, or from the destination if existing objects are trusted. */
  predicate Readable(su: Setup, s: State, d: Digest) {
    d in su.src.objects || ((su.policy.MissingDataOnly? || su.policy.LatestTags?) && d in s.dest.objects)
  }

  predicate TaskFollows(su: Setup, s: State, t: Task) {
    match t.phase
    case TagWaiting(tag, _, _) => su.policy.MissingDataOnly? ==> tag !in su.initial.tags
    case Begin(d) => !su.ObjectOf(d).Blob? ==> Readable(su, s, d)
    case Claimed(d) => Readable(su, s, d)
    case Waiting(d, _, _) =>
      d in su.src.objects && (su.policy.MissingDataOnly? || su.policy.LatestTags? ==> d !in su.initial.objects)
    case Copying(d) => !su.policy.ResyncEverything? ==> d !in su.initial.payloads
    case BlobNext(d) => su.policy.ResyncEverything? ==> d in su.src.payloads
    case MarkNext(d) => su.policy.ResyncEverything? ==> d in su.src.payloads
    case _ => true
  }

  predicate ProcessedFollows(su: Setup, d: Digest) {
    && (su.ObjectOf(d).Blob? && su.policy.ResyncEverything? ==> d in su.src.payloads)
    && (!su.ObjectOf(d).Blob? && (su.policy.LatestTagsAndResyncObjects? || su.policy.ResyncEverything?) ==>
          d in su.src.objects)
  }

  ghost predicate Follows(su: Setup, s: State) {
    && (forall i :: 0 <= i < |s.tasks| ==> TaskFollows(su, s, s.tasks[i]))
    && (forall d :: d in s.processed ==> ProcessedFollows(su, d))
    && (forall d :: d in s.dest.objects ==> StoredFollows(su, d))
    && (forall t :: t in su.initial.tags ==> t in s.dest.tags)
    && (su.policy.MissingDataOnly? ==> forall t :: t in su.initial.tags ==> s.dest.tags[t] == su.initial.tags[t])
  }

  /** What a step needs to know of the task that makes it. */
  predicate Mover(su: Setup, s: State, i: nat) {
    i < |s.tasks| ==> TaskOk(su, s, s.tasks[i]) && TaskFollows(su, s, s.tasks[i])
  }

  lemma MovedFollows(su: Setup, s: State, i: nat, outcome: Outcome)
    requires Mover(su, s, i) && i < |s.tasks|
    requires su.initial.objects.Keys <= s.dest.objects.Keys && su.initial.payloads <= s.dest.payloads
    requires forall t :: t in su.initial.tags ==> t in s.dest.tags
    requires forall d :: d in s.processed ==> ProcessedFollows(su, d)
    ensures var s' := Step(su, s, i, outcome); i < |s'.tasks| && TaskFollows(su, s', s'.tasks[i])
  {
    hide ManifestsHeld, PayloadsHeld, Calls, CallsCover, AllReturned;
  }

  lemma OthersFollow(su: Setup, s: State, s': State, t: Task)
    requires TaskFollows(su, s, t) && Grows(s, s')
    ensures TaskFollows(su, s', t)
  {
  }

  lemma ProcessedStillFollows(su: Setup, s: State, i: nat, outcome: Outcome, d: Digest)
    requires Mover(su, s, i) && (d in s.processed ==> ProcessedFollows(su, d))
    requires d in Step(su, s, i, outcome).processed
    ensures ProcessedFollows(su, d)
  {
    hide ManifestsHeld, PayloadsHeld, Calls, CallsCover, AllReturned;
  }

  predicate StoredFollows(su: Setup, d: Digest) {
    d in su.initial.objects || su.ObjectOf(d).Blob? || d in su.src.objects
  }

  lemma StoredStillFollows(su: Setup, s: State, i: nat, outcome: Outcome, d: Digest)
    requires Mover(su, s, i) && (d in s.dest.objects ==> StoredFollows(su, d))
    requires d in Step(su, s, i, outcome).dest.objects
    ensures StoredFollows(su, d)
  {
    hide ManifestsHeld, PayloadsHeld, Calls, CallsCover, AllReturned;
  }

  lemma TagStillFollows(su: Setup, s: State, i: nat, outcome: Outcome, t: string)
    requires Mover(su, s, i) && t in su.initial.tags && t in s.dest.tags
    requires su.policy.MissingDataOnly? ==> s.dest.tags[t] == su.initial.tags[t]
    ensures var tags := Step(su, s, i, outcome).dest.tags;
            t in tags && (su.policy.MissingDataOnly? ==> tags[t] == su.initial.tags[t])
  {
    hide ManifestsHeld, PayloadsHeld, Calls, CallsCover, AllReturned;
  }

  lemma StepFollows(su: Setup, s: State, i: nat, outcome: Outcome)
    requires Inv(su, s) && Follows(su, s)
    ensures Follows(su, Step(su, s, i, outcome))
  {
    var s' := Step(su, s, i, outcome);
    StepMovesOne(su, s, i, outcome);
    StepGrows(su, s, i, outcome);
    assert Mover(su, s, i);
    hide Inv, Step, TaskFollows, ProcessedFollows, Mover;
    forall j | 0 <= j < |s'.tasks|
      ensures TaskFollows(su, s', s'.tasks[j])
    {
      TasksFollow(su, s, i, outcome, j);
    }
    forall d | d in s'.processed
      ensures ProcessedFollows(su, d)
    {
      ProcessedStillFollows(su, s, i, outcome, d);
    }
    forall d | d in s'.dest.objects
      ensures StoredFollows(su, d)
    {
      StoredStillFollows(su, s, i, outcome, d);
    }
    forall t | t in su.initial.tags
      ensures t in s'.dest.tags && (su.policy.MissingDataOnly? ==> s'.dest.tags[t] == su.initial.tags[t])
    {
      TagStillFollows(su, s, i, outcome, t);
    }
  }

  lemma NextFollows(su: Setup, s: State, i: nat, outcome: Outcome)
    requires Inv(su, s) && Follows(su, s) && i < |s.tasks|
    ensures var s' := Step(su, s, i, outcome); i < |s'.tasks| && TaskFollows(su, s', s'.tasks[i])
  {
    assert Mover(su, s, i);
    hide Step, Mover, TaskOk, TaskFollows, Settled, InFlight, ObjectOk;
    MovedFollows(su, s, i, outcome);
  }

  lemma TasksFollow(su: Setup, s: State, i: nat, outcome: Outcome, j: nat)
    requires Inv(su, s) && Follows(su, s) && j < |Step(su, s, i, outcome).tasks|
    ensures TaskFollows(su, Step(su, s, i, outcome), Step(su, s, i, outcome).tasks[j])
  {
    var s' := Step(su, s, i, outcome);
    StepMovesOne(su, s, i, outcome);
    StepGrows(su, s, i, outcome);
    hide Inv, Step, Grows;
    if j == i && i < |s.tasks| {
      NextFollows(su, s, i, outcome);
    } else if j < |s.tasks| {
      OthersFollow(su, s, s', s.tasks[j]);
    }
  }

  lemma {:induction false} ExecFollows(su: Setup, s: State, schedule: seq<(nat, Outcome)>)
    requires su.Valid() && Inv(su, s) && Follows(su, s)
    ensures Follows(su, Exec(su, s, schedule))
    decreases |schedule|
  {
    if schedule != [] {
      hide Inv, Follows, Step;
      StepFollows(su, s, schedule[0].0, schedule[0].1);
      StepKeepsInv(su, s, schedule[0].0, schedule[0].1);
      ExecFollows(su, Step(su, s, schedule[0].0, schedule[0].1), schedule[1..]);
    }
  }

  lemma RunFollows(su: Setup, items: seq<Call>, schedule: seq<(nat, Outcome)>)
    requires su.Valid() && TopLevel(items)
    ensures Follows(su, Exec(su, Init(su, items), schedule)) && Inv(su, Exec(su, Init(su, items), schedule))
  {
    assert Inv(su, Init(su, items)) && Follows(su, Init(su, items));
    hide Inv, Follows;
    ExecFollows(su, Init(su, items), schedule);
    ExecKeepsInv(su, Init(su, items), schedule);
  }

  // ----- Tags -----

  /** Under every policy but the default one a successful sync brings its tags to the source's targets. */
  lemma TagsReachSource(su: Setup, items: seq<Call>, schedule: seq<(nat, Outcome)>, i: nat)
    requires su.Valid() && TopLevel(items) && !su.policy.MissingDataOnly?
    requires Succeeded(Exec(su, Init(su, items), schedule)) && i < |items| && items[i].TagCall?
    ensures var tags := Exec(su, Init(su, items), schedule).dest.tags;
            && items[i].tag in su.src.tags && items[i].tag in tags
            && tags[items[i].tag] == su.src.tags[items[i].tag]
  {
    DemandedProcessed(su, items, schedule);
    hide Inv, Exec;
    assert TagSettled(su, Exec(su, Init(su, items), schedule), items[i].tag);
  }

  /** Under the default policy a tag that the destination has keeps its target, at every moment. */
  lemma ExistingTagsStay(su: Setup, items: seq<Call>, schedule: seq<(nat, Outcome)>, tag: string)
    requires su.Valid() && TopLevel(items) && su.policy.MissingDataOnly? && tag in su.initial.tags
    ensures var tags := Exec(su, Init(su, items), schedule).dest.tags; tag in tags && tags[tag] == su.initial.tags[tag]
  {
    RunFollows(su, items, schedule);
    hide Inv, Exec;
  }

  ghost predicate TagsAsked(su: Setup, items: seq<Call>, s: State) {
    && (forall i :: 0 <= i < |s.tasks| && s.tasks[i].call.TagCall? ==> s.tasks[i].call in items)
    && (forall i :: 0 <= i < |s.tasks| && s.tasks[i].phase.TagWaiting? ==> TagCall(s.tasks[i].phase.tag) in items)
    && (forall t :: t in s.dest.tags ==>
          (t in su.initial.tags && s.dest.tags[t] == su.initial.tags[t]) || TagCall(t) in items)
  }

  lemma StepAsks(su: Setup, items: seq<Call>, s: State, i: nat, outcome: Outcome)
    requires Inv(su, s) && TagsAsked(su, items, s)
    ensures TagsAsked(su, items, Step(su, s, i, outcome))
  {
    forall k | 0 <= k < |s.tasks| && s.tasks[k].phase.Waiting?
      ensures forall call :: call in s.tasks[k].phase.todo ==> !call.TagCall?
    {
      assert TaskOk(su, s, s.tasks[k]);
    }
    TagsAre(su, items, s, i, outcome);
    hide Inv, Step;
    var s' := Step(su, s, i, outcome);
    forall j | 0 <= j < |s'.tasks|
      ensures s'.tasks[j].call.TagCall? ==> s'.tasks[j].call in items
      ensures s'.tasks[j].phase.TagWaiting? ==> TagCall(s'.tasks[j].phase.tag) in items
    {
      TaskAsks(su, items, s, i, outcome, j);
    }
  }

  lemma TagsAre(su: Setup, items: seq<Call>, s: State, i: nat, outcome: Outcome)
    requires TagsAsked(su, items, s)
    ensures forall t :: t in Step(su, s, i, outcome).dest.tags ==>
              || (t in su.initial.tags && Step(su, s, i, outcome).dest.tags[t] == su.initial.tags[t])
              || TagCall(t) in items
  {
    hide ManifestsHeld, PayloadsHeld, AllReturned, Calls;
  }

  lemma {:induction false} ExecAsks(su: Setup, items: seq<Call>, s: State, schedule: seq<(nat, Outcome)>)
    requires su.Valid() && Inv(su, s) && TagsAsked(su, items, s)
    ensures TagsAsked(su, items, Exec(su, s, schedule))
    decreases |schedule|
  {
    if schedule != [] {
      hide Inv, TagsAsked, Step;
      StepAsks(su, items, s, schedule[0].0, schedule[0].1);
      StepKeepsInv(su, s, schedule[0].0, schedule[0].1);
      ExecAsks(su, items, Step(su, s, schedule[0].0, schedule[0].1), schedule[1..]);
    }
  }

  /** Only tags that are asked for change. */
  lemma OtherTagsStay(su: Setup, items: seq<Call>, schedule: seq<(nat, Outcome)>, tag: string)
    requires su.Valid() && TopLevel(items) && TagCall(tag) !in items
    ensures var tags := Exec(su, Init(su, items), schedule).dest.tags;
            && (tag in tags <==> tag in su.initial.tags)
            && (tag in su.initial.tags ==> tags[tag] == su.initial.tags[tag])
  {
    assert Inv(su, Init(su, items)) && TagsAsked(su, items, Init(su, items));
    RunFollows(su, items, schedule);
    hide Exec, Inv;
    ExecAsks(su, items, Init(su, items), schedule);
  }

  lemma TaskAsks(su: Setup, items: seq<Call>, s: State, i: nat, outcome: Outcome, j: nat)
    requires TagsAsked(su, items, s) && j < |Step(su, s, i, outcome).tasks|
    requires forall k :: 0 <= k < |s.tasks| && s.tasks[k].phase.Waiting? ==>
               forall call :: call in s.tasks[k].phase.todo ==> !call.TagCall?
    ensures var t := Step(su, s, i, outcome).tasks[j];
            && (t.call.TagCall? ==> t.call in items)
            && (t.phase.TagWaiting? ==> TagCall(t.phase.tag) in items)
  {
    hide ManifestsHeld, PayloadsHeld, AllReturned, Calls;
  }

  // ----- Objects -----

  /** The default policy and the one for the latest tags descend only into objects that are missing. */
  lemma DescendsIntoMissing(su: Setup, items: seq<Call>, schedule: seq<(nat, Outcome)>, i: nat)
    requires su.Valid() && TopLevel(items) && (su.policy.MissingDataOnly? || su.policy.LatestTags?)
    requires i < |Exec(su, Init(su, items), schedule).tasks|
    ensures var phase := Exec(su, Init(su, items), schedule).tasks[i].phase;
            phase.Waiting? ==> phase.d !in su.initial.objects
  {
    RunFollows(su, items, schedule);
    hide Inv, Exec;
    assert TaskFollows(su, Exec(su, Init(su, items), schedule), Exec(su, Init(su, items), schedule).tasks[i]);
  }

  /** What is stored and was not there before comes from the source, except for the blobs of manifest entries. */
  lemma StoredComesFromSource(su: Setup, items: seq<Call>, schedule: seq<(nat, Outcome)>, d: Digest)
    requires su.Valid() && TopLevel(items) && d in Exec(su, Init(su, items), schedule).dest.objects
    ensures d in su.initial.objects || d in su.src.objects || (d in su.content && su.content[d].Blob?)
  {
    RunFollows(su, items, schedule);
    hide Exec;
    assert ObjectOk(su, Exec(su, Init(su, items), schedule), d);
  }

  lemma ReachedIsProcessed(su: Setup, items: seq<Call>, schedule: seq<(nat, Outcome)>, d: Digest)
    requires su.Valid() && TopLevel(items)
    requires su.policy.LatestTagsAndResyncObjects? || su.policy.ResyncEverything?
    requires Succeeded(Exec(su, Init(su, items), schedule)) && Reachable(su.content, Requested(su, items), d)
    ensures d in Exec(su, Init(su, items), schedule).processed
  {
    var s := Exec(su, Init(su, items), schedule);
    DemandedProcessed(su, items, schedule);
    hide Exec, Inv;
    assert Covers(su.content, Requested(su, items), s.processed) by {
      forall p, c | p in s.processed && Edge(su.content, p, c)
        ensures c in s.processed
      {
        assert Settled(su, s, p);
      }
    }
    CoverHoldsReachable(su.content, Requested(su, items), s.processed, d);
  }

  /**
    A policy that resyncs objects reads every one of them again: a sync succeeds only if the source has
    everything that is reached and is not a blob.
   */
  lemma ResyncReadsAll(su: Setup, items: seq<Call>, schedule: seq<(nat, Outcome)>, d: Digest)
    requires su.Valid() && TopLevel(items)
    requires su.policy.LatestTagsAndResyncObjects? || su.policy.ResyncEverything?
    requires Succeeded(Exec(su, Init(su, items), schedule)) && Reachable(su.content, Requested(su, items), d)
    requires d in su.content && !su.content[d].Blob?
    ensures d in su.src.objects
  {
    RunFollows(su, items, schedule);
    ReachedIsProcessed(su, items, schedule, d);
    hide Exec, Inv;
    assert ProcessedFollows(su, d);
  }

  // ----- Payloads -----

  /** Only the policy that resyncs everything copies a payload that was there. */
  lemma CopiesMissingPayloads(su: Setup, items: seq<Call>, schedule: seq<(nat, Outcome)>, i: nat)
    requires su.Valid() && TopLevel(items) && !su.policy.ResyncEverything?
    requires i < |Exec(su, Init(su, items), schedule).tasks|
    ensures var phase := Exec(su, Init(su, items), schedule).tasks[i].phase;
            phase.Copying? ==> phase.d !in su.initial.payloads
  {
    RunFollows(su, items, schedule);
    hide Inv, Exec;
    assert TaskFollows(su, Exec(su, Init(su, items), schedule), Exec(su, Init(su, items), schedule).tasks[i]);
  }

  /** And it copies all of them: it succeeds only if the source has the payload of every blob that is reached. */
  lemma ResyncCopiesPayloads(su: Setup, items: seq<Call>, schedule: seq<(nat, Outcome)>, d: Digest)
    requires su.Valid() && TopLevel(items) && su.policy.ResyncEverything?
    requires Succeeded(Exec(su, Init(su, items), schedule)) && Reachable(su.content, Requested(su, items), d)
    requires d in su.content && su.content[d].Blob?
    ensures d in su.src.payloads
  {
    RunFollows(su, items, schedule);
    ReachedIsProcessed(su, items, schedule, d);
    hide Exec, Inv;
    assert ProcessedFollows(su, d);
  }

  /** Nothing but what the source has, and what a repository has delivered instead, is added to the payloads. */
  lemma {:induction false} PayloadsComeFromSource(su: Setup, s: State, schedule: seq<(nat, Outcome)>, p: Digest)
    requires p in Exec(su, s, schedule).dest.payloads
    ensures p in s.dest.payloads || p in su.src.payloads
            || exists k :: 0 <= k < |schedule| && schedule[k].1 == DeliversOther(p)
    decreases |schedule|
  {
    if schedule != [] {
      var s' := Step(su, s, schedule[0].0, schedule[0].1);
      PayloadsComeFromSource(su, s', schedule[1..], p);
      if p in s'.dest.payloads {
        StepDelivers(su, s, schedule[0].0, schedule[0].1, p);
      }
      hide Step;
      if k :| 0 <= k < |schedule[1..]| && schedule[1..][k].1 == DeliversOther(p) {
        assert schedule[k + 1].1 == DeliversOther(p);
      }
    }
  }

  lemma StepDelivers(su: Setup, s: State, i: nat, outcome: Outcome, p: Digest)
    requires p in Step(su, s, i, outcome).dest.payloads
    ensures p in s.dest.payloads || p in su.src.payloads || outcome == DeliversOther(p)
  {
    hide ManifestsHeld, PayloadsHeld, Calls, AllReturned;
  }

  // ----- One step at a time where the code has it so -----

  predicate WithinPermits(su: Setup, s: State) {
    ManifestsHeld(su, s.tasks) <= su.manifestPermits && PayloadsHeld(s.tasks) <= su.payloadPermits
  }

  lemma {:induction false} HeldOfUpdate(su: Setup, tasks: seq<Task>, i: nat, t: Task)
    requires i < |tasks|
    ensures ManifestsHeld(su, tasks[i := t])
            == ManifestsHeld(su, tasks) - (if HoldsManifest(su, tasks[i]) then 1 else 0)
               + (if HoldsManifest(su, t) then 1 else 0)
    ensures PayloadsHeld(tasks[i := t])
            == PayloadsHeld(tasks) - (if tasks[i].phase.Copying? then 1 else 0) + (if t.phase.Copying? then 1 else 0)
  {
    hide HoldsManifest;
    var init := tasks[..|tasks| - 1];
    if i < |tasks| - 1 {
      assert tasks[i := t][..|tasks| - 1] == init[i := t];
      HeldOfUpdate(su, init, i, t);
    } else {
      assert tasks[i := t][..|tasks| - 1] == init;
    }
  }

  lemma HeldOfStart(su: Setup, tasks: seq<Task>, t: Task)
    requires t.phase.Start?
    ensures ManifestsHeld(su, tasks + [t]) == ManifestsHeld(su, tasks)
    ensures PayloadsHeld(tasks + [t]) == PayloadsHeld(tasks)
  {
    assert (tasks + [t])[..|tasks|] == tasks;
  }

  /** What a step does to the task that it moves, as far as permits go. */
  lemma MovedHolds(su: Setup, s: State, i: nat, outcome: Outcome)
    requires Inv(su, s) && i < |s.tasks|
    ensures var s' := Step(su, s, i, outcome);
            && i < |s'.tasks|
            && (HoldsManifest(su, s'.tasks[i]) && !HoldsManifest(su, s.tasks[i]) ==>
                  ManifestsHeld(su, s.tasks) < su.manifestPermits)
            && (s'.tasks[i].phase.Copying? && !s.tasks[i].phase.Copying? ==> PayloadsHeld(s.tasks) < su.payloadPermits)
  {
    assert TaskOk(su, s, s.tasks[i]);
    hide ManifestsHeld, PayloadsHeld, Calls, CallsCover, AllReturned;
  }

  lemma StepWithinPermits(su: Setup, s: State, i: nat, outcome: Outcome)
    requires Inv(su, s) && WithinPermits(su, s)
    ensures WithinPermits(su, Step(su, s, i, outcome))
  {
    var s' := Step(su, s, i, outcome);
    if i < |s.tasks| {
      StepMovesOne(su, s, i, outcome);
      MovedHolds(su, s, i, outcome);
      hide Step, Inv, HoldsManifest, ManifestsHeld, PayloadsHeld;
      HeldAfter(su, s.tasks, s'.tasks, i);
    }
  }

  lemma HeldAfter(su: Setup, tasks: seq<Task>, after: seq<Task>, i: nat)
    requires i < |tasks| <= |after| <= |tasks| + 1 && forall j :: 0 <= j < |tasks| && j != i ==> after[j] == tasks[j]
    requires |after| > |tasks| ==> after[|tasks|].phase.Start?
    ensures ManifestsHeld(su, after) == ManifestsHeld(su, tasks) - (if HoldsManifest(su, tasks[i]) then 1 else 0)
                                        + (if HoldsManifest(su, after[i]) then 1 else 0)
    ensures PayloadsHeld(after) == PayloadsHeld(tasks) - (if tasks[i].phase.Copying? then 1 else 0)
                                   + (if after[i].phase.Copying? then 1 else 0)
  {
    hide HoldsManifest, ManifestsHeld, PayloadsHeld;
    HeldOfUpdate(su, tasks, i, after[i]);
    var moved := tasks[i := after[i]];
    if |after| > |tasks| {
      HeldOfStart(su, moved, after[|tasks|]);
      assert after == moved + [after[|tasks|]];
    } else {
      assert after == moved;
    }
  }

  lemma {:induction false} ExecWithinPermits(su: Setup, s: State, schedule: seq<(nat, Outcome)>)
    requires su.Valid() && Inv(su, s) && WithinPermits(su, s)
    ensures WithinPermits(su, Exec(su, s, schedule))
    decreases |schedule|
  {
    if schedule != [] {
      hide Inv, WithinPermits, Step;
      StepWithinPermits(su, s, schedule[0].0, schedule[0].1);
      StepKeepsInv(su, s, schedule[0].0, schedule[0].1);
      ExecWithinPermits(su, Step(su, s, schedule[0].0, schedule[0].1), schedule[1..]);
    }
  }

  lemma {:induction false} ManifestsCount(su: Setup, tasks: seq<Task>)
    ensures ManifestsHeld(su, tasks) == |set k | 0 <= k < |tasks| && HoldsManifest(su, tasks[k])|
  {
    hide HoldsManifest;
    if tasks != [] {
      var init, last := tasks[..|tasks| - 1], |tasks| - 1;
      ManifestsCount(su, init);
      var few := set k | 0 <= k < |init| && HoldsManifest(su, init[k]);
      assert (set k | 0 <= k < |tasks| && HoldsManifest(su, tasks[k]))
          == if HoldsManifest(su, tasks[last]) then few + {last} else few;
    }
  }

  lemma {:induction false} PayloadsCount(tasks: seq<Task>)
    ensures PayloadsHeld(tasks) == |set k | 0 <= k < |tasks| && tasks[k].phase.Copying?|
  {
    if tasks != [] {
      var init, last := tasks[..|tasks| - 1], |tasks| - 1;
      PayloadsCount(init);
      var few := set k | 0 <= k < |init| && init[k].phase.Copying?;
      assert (set k | 0 <= k < |tasks| && tasks[k].phase.Copying?)
          == if tasks[last].phase.Copying? then few + {last} else few;
    }
  }

  lemma HeldCount(su: Setup, tasks: seq<Task>)
    ensures ManifestsHeld(su, tasks) ==
            |set k | 0 <= k < |tasks| && tasks[k].phase.Waiting? && su.ObjectOf(tasks[k].phase.d).Manifest?|
    ensures PayloadsHeld(tasks) == |set k | 0 <= k < |tasks| && tasks[k].phase.Copying?|
  {
    ManifestsCount(su, tasks);
    PayloadsCount(tasks);
    assert (set k | 0 <= k < |tasks| && tasks[k].phase.Waiting? && su.ObjectOf(tasks[k].phase.d).Manifest?)
        == set k | 0 <= k < |tasks| && HoldsManifest(su, tasks[k]);
  }

  lemma NoneHeld(su: Setup, tasks: seq<Task>)
    requires forall i :: 0 <= i < |tasks| ==> tasks[i].phase.Start?
    ensures ManifestsHeld(su, tasks) == 0 && PayloadsHeld(tasks) == 0
  {
    HeldCount(su, tasks);
    assert (set k | 0 <= k < |tasks| && tasks[k].phase.Waiting? && su.ObjectOf(tasks[k].phase.d).Manifest?) == {};
    assert (set k | 0 <= k < |tasks| && tasks[k].phase.Copying?) == {};
  }

  /** At no moment are the children of more manifests synced, or more payloads copied, than there are permits. */
  lemma PermitsAreRespected(su: Setup, items: seq<Call>, schedule: seq<(nat, Outcome)>)
    requires su.Valid() && TopLevel(items)
    ensures var tasks := Exec(su, Init(su, items), schedule).tasks;
            && |set k | 0 <= k < |tasks| && tasks[k].phase.Waiting? && su.ObjectOf(tasks[k].phase.d).Manifest?|
               <= su.manifestPermits
            && |set k | 0 <= k < |tasks| && tasks[k].phase.Copying?| <= su.payloadPermits
  {
    NoneHeld(su, Init(su, items).tasks);
    assert Inv(su, Init(su, items));
    hide Inv, Exec;
    ExecWithinPermits(su, Init(su, items), schedule);
    HeldCount(su, Exec(su, Init(su, items), schedule).tasks);
  }

  predicate OneReturned(s: State, a: nat, b: nat) {
    a < |s.tasks| && b < |s.tasks| && (s.tasks[a].phase.Returned? || s.tasks[b].phase.Returned?)
  }

  /** A layer makes its calls in turn: of any two that it has made one has returned. */
  predicate TurnAt(su: Setup, s: State, i: nat)
    requires i < |s.tasks|
  {
    var phase := s.tasks[i].phase;
    phase.Waiting? && su.ObjectOf(phase.d).Layer? ==>
      forall a, b :: a in phase.made && b in phase.made && a != b ==> OneReturned(s, a, b)
  }

  predicate InTurn(su: Setup, s: State) {
    forall i :: 0 <= i < |s.tasks| ==> TurnAt(su, s, i)
  }

  lemma StepInTurn(su: Setup, s: State, i: nat, outcome: Outcome)
    requires InTurn(su, s)
    ensures InTurn(su, Step(su, s, i, outcome))
  {
    var s' := Step(su, s, i, outcome);
    StepMovesOne(su, s, i, outcome);
    ReturnedStays(su, s, i, outcome);
    hide Step;
    forall j | 0 <= j < |s'.tasks|
      ensures TurnAt(su, s', j)
    {
      if j == i && i < |s.tasks| {
        assert TurnAt(su, s, i);
        MovedInTurn(su, s, i, outcome);
      } else if j < |s.tasks| {
        assert TurnAt(su, s, j);
        var made := if s.tasks[j].phase.Waiting? then s.tasks[j].phase.made else {};
        forall a, b | a in made && b in made && a != b && OneReturned(s, a, b)
          ensures OneReturned(s', a, b)
        {
        }
      }
    }
  }

  lemma ReturnedStays(su: Setup, s: State, i: nat, outcome: Outcome)
    ensures forall j :: 0 <= j < |s.tasks| && s.tasks[j].phase.Returned? ==>
              |s.tasks| <= |Step(su, s, i, outcome).tasks| && Step(su, s, i, outcome).tasks[j].phase.Returned?
  {
    StepMovesOne(su, s, i, outcome);
    hide ManifestsHeld, PayloadsHeld, Calls, AllReturned;
  }

  lemma MovedInTurn(su: Setup, s: State, i: nat, outcome: Outcome)
    requires i < |s.tasks| && TurnAt(su, s, i)
    ensures i < |Step(su, s, i, outcome).tasks| && TurnAt(su, Step(su, s, i, outcome), i)
  {
    StepMovesOne(su, s, i, outcome);
    ReturnedStays(su, s, i, outcome);
    hide ManifestsHeld, PayloadsHeld, Calls;
    var s' := Step(su, s, i, outcome);
    var phase, phase' := s.tasks[i].phase, s'.tasks[i].phase;
    if phase'.Waiting? && su.ObjectOf(phase'.d).Layer? {
      forall a, b | a in phase'.made && b in phase'.made && a != b
        ensures OneReturned(s', a, b)
      {
        if phase.Waiting? && phase'.made != phase.made {
          assert phase'.made == phase.made + {|s.tasks|} && AllReturned(s, phase.made) && |s'.tasks| == |s.tasks| + 1;
          assert a in phase.made || b in phase.made;
        } else if phase.Waiting? {
          assert OneReturned(s, a, b);
        }
      }
    }
  }

  lemma {:induction false} ExecInTurn(su: Setup, s: State, schedule: seq<(nat, Outcome)>)
    requires InTurn(su, s)
    ensures InTurn(su, Exec(su, s, schedule))
    decreases |schedule|
  {
    if schedule != [] {
      hide InTurn, Step;
      StepInTurn(su, s, schedule[0].0, schedule[0].1);
      ExecInTurn(su, Step(su, s, schedule[0].0, schedule[0].1), schedule[1..]);
    }
  }

  /** A layer waits for one call at a time. */
  lemma LayersCallInTurn(su: Setup, items: seq<Call>, schedule: seq<(nat, Outcome)>, i: nat, a: nat, b: nat)
    requires i < |Exec(su, Init(su, items), schedule).tasks|
    requires var phase := Exec(su, Init(su, items), schedule).tasks[i].phase;
             phase.Waiting? && su.ObjectOf(phase.d).Layer? && a in phase.made && b in phase.made && a != b
    ensures var tasks := Exec(su, Init(su, items), schedule).tasks;
            a < |tasks| && b < |tasks| && (tasks[a].phase.Returned? || tasks[b].phase.Returned?)
  {
    assert InTurn(su, Init(su, items));
    hide Exec;
    ExecInTurn(su, Init(su, items), schedule);
    assert TurnAt(su, Exec(su, Init(su, items), schedule), i);
  }

  /** The calls of an object are its children in their order, each with its own kind of call. */
  lemma CallsInOrder(obj: Object, i: nat)
    requires i < |ChildObjects(obj)|
    ensures |Calls(obj)| == |ChildObjects(obj)|
    ensures Calls(obj)[i] ==
            if obj.Manifest? then EntryCall(ChildObjects(obj)[i])
            else if obj.Layer? && obj.manifest.Some? && i == 0 then ManifestCall(obj.manifest.value)
            else DigestCall(ChildObjects(obj)[i])
  {
    match obj
    case Platform(stack) => DigestCallsInOrder(stack);
    case Manifest(entries) => EntryCallsInOrder(EntryBlobs(entries));
    case Layer(manifest, annotations) => LayerCallsInOrder(manifest, AnnotationBlobs(annotations), i);
  }

  lemma LayerCallsInOrder(manifest: Option<Digest>, blobs: seq<Digest>, i: nat)
    requires i < |(if manifest.Some? then [manifest.value] else []) + blobs|
    ensures var children := (if manifest.Some? then [manifest.value] else []) + blobs;
            && |LayerCalls(manifest, blobs)| == |children|
            && LayerCalls(manifest, blobs)[i] ==
               if manifest.Some? && i == 0 then ManifestCall(manifest.value) else DigestCall(children[i])
  {
    DigestCallsInOrder(blobs);
    assert LayerCalls(manifest, blobs) ==
           (if manifest.Some? then [ManifestCall(manifest.value)] else []) + DigestCalls(blobs);
    hide LayerCalls, DigestCalls;
  }

  lemma {:induction false} DigestCallsInOrder(digests: seq<Digest>)
    ensures DigestCalls(digests) == seq(|digests|, i requires 0 <= i < |digests| => DigestCall(digests[i]))
  {
    if digests != [] {
      DigestCallsInOrder(digests[1..]);
    }
  }

  lemma {:induction false} EntryCallsInOrder(digests: seq<Digest>)
    ensures EntryCalls(digests) == seq(|digests|, i requires 0 <= i < |digests| => EntryCall(digests[i]))
  {
    if digests != [] {
      EntryCallsInOrder(digests[1..]);
    }
  }
}
