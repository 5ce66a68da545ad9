/**
  The concurrent sync always comes to an end, and never in a deadlock, as long as there are
  permits to copy at least one manifest and one payload at a time.
 */
module SyncProgress {
  import opened Graph
  import opened SyncProtocol

  // ----- A bound on the steps of every run -----

  /** The steps that the calls of an object may still need, all the way down. */
  ghost function BodyWeight(su: Setup, rank: Digest -> nat, d: Digest): nat
    decreases rank(d) + 1, 0
  {
    TodoWeight(su, rank, rank(d), Calls(su.ObjectOf(d)))
  }

  ghost function TodoWeight(su: Setup, rank: Digest -> nat, bound: nat, todo: seq<Call>): nat
    decreases bound, |todo|
  {
    if todo == [] then 0
    else
      (if !todo[0].TagCall? && rank(todo[0].digest) < bound then 8 + BodyWeight(su, rank, todo[0].digest) else 0) +
      TodoWeight(su, rank, bound, todo[1..])
  }

  ghost function StartWeight(su: Setup, rank: Digest -> nat, call: Call): nat {
    match call
    case TagCall(tag) => if tag in su.src.tags then 9 + BodyWeight(su, rank, su.src.tags[tag]) else 1
    case _ => 7 + BodyWeight(su, rank, call.digest)
  }

  ghost function Weight(su: Setup, rank: Digest -> nat, t: Task): nat {
    match t.phase
    case Start => StartWeight(su, rank, t.call)
    case Read(d) => 6 + BodyWeight(su, rank, d)
    case Begin(d) => 5 + BodyWeight(su, rank, d)
    case Claimed(d) => 4 + BodyWeight(su, rank, d)
    case Waiting(d, todo, _) => 1 + TodoWeight(su, rank, rank(d), todo)
    case PayloadNext(_) => 4
    case Copying(_) => 3
    case BlobNext(_) => 2
    case MarkNext(_) => 1
    case TagWaiting(_, _, _) => 1
    case Returned => 0
    case Failed => 0
  }

  ghost function Total(su: Setup, rank: Digest -> nat, tasks: seq<Task>): nat {
    if tasks == [] then 0
    else Total(su, rank, tasks[..|tasks| - 1]) + Weight(su, rank, tasks[|tasks| - 1])
  }

  lemma {:induction false} TotalOfUpdate(su: Setup, rank: Digest -> nat, tasks: seq<Task>, i: nat, t: Task)
    requires i < |tasks|
    ensures Total(su, rank, tasks[i := t]) == Total(su, rank, tasks) - Weight(su, rank, tasks[i]) + Weight(su, rank, t)
  {
    hide Weight;
    var init := tasks[..|tasks| - 1];
    if i < |tasks| - 1 {
      assert tasks[i := t][..|tasks| - 1] == init[i := t];
      TotalOfUpdate(su, rank, init, i, t);
    } else {
      assert tasks[i := t][..|tasks| - 1] == init;
    }
  }

  /** The step moves task `i` and may start one more; together they weigh less than before. */
  lemma TotalAfter(su: Setup, rank: Digest -> nat, s: State, s': State, i: nat)
    requires i < |s.tasks| && |s.tasks| <= |s'.tasks| <= |s.tasks| + 1
    requires forall j :: 0 <= j < |s.tasks| && j != i ==> s'.tasks[j] == s.tasks[j]
    requires Weight(su, rank, s'.tasks[i]) +
             (if |s'.tasks| > |s.tasks| then Weight(su, rank, s'.tasks[|s.tasks|]) else 0)
             < Weight(su, rank, s.tasks[i])
    ensures Total(su, rank, s'.tasks) < Total(su, rank, s.tasks)
  {
    hide Weight;
    TotalOfUpdate(su, rank, s.tasks, i, s'.tasks[i]);
    var moved := s.tasks[i := s'.tasks[i]];
    if |s'.tasks| > |s.tasks| {
      assert s'.tasks[..|s'.tasks| - 1] == moved;
    } else {
      assert s'.tasks == moved;
    }
  }

  lemma SpawnDecreases(su: Setup, rank: Digest -> nat, s: State, i: nat)
    requires Ready(su, s, i) && Ranked(su.content, rank) && s.tasks[i].phase.Waiting?
    requires Step(su, s, i, Proceeds) != s
    ensures Total(su, rank, Step(su, s, i, Proceeds).tasks) < Total(su, rank, s.tasks)
  {
    assert TaskOk(su, s, s.tasks[i]);
    var d, todo := s.tasks[i].phase.d, s.tasks[i].phase.todo;
    if todo != [] {
      assert todo[0] in Calls(su.content[d]);
      assert Edge(su.content, d, todo[0].digest);
    }
    hide Inv, TaskOk;
    TotalAfter(su, rank, s, Step(su, s, i, Proceeds), i);
  }

  lemma StepDecreases(su: Setup, rank: Digest -> nat, s: State, i: nat, outcome: Outcome)
    requires su.Valid() && Inv(su, s) && Ranked(su.content, rank)
    requires Step(su, s, i, outcome) != s
    ensures Total(su, rank, Step(su, s, i, outcome).tasks) < Total(su, rank, s.tasks)
  {
    hide Inv;
    var s' := Step(su, s, i, outcome);
    if s.tasks[i].phase.Waiting? && !outcome.Fails? {
      SpawnDecreases(su, rank, s, i);
    } else if s.tasks[i].phase.Start? && !outcome.Fails? {
      StartDecreases(su, rank, s, i);
    } else {
      MoveDecreases(su, rank, s, i, outcome);
      hide Weight, Total, Step, Ranked;
      TotalAfter(su, rank, s, s', i);
    }
  }

  lemma MoveDecreases(su: Setup, rank: Digest -> nat, s: State, i: nat, outcome: Outcome)
    requires Step(su, s, i, outcome) != s
    requires outcome.Fails? || !(s.tasks[i].phase.Start? || s.tasks[i].phase.Waiting?)
    ensures var s' := Step(su, s, i, outcome);
            && |s'.tasks| == |s.tasks| && (forall j :: 0 <= j < |s.tasks| && j != i ==> s'.tasks[j] == s.tasks[j])
            && Weight(su, rank, s'.tasks[i]) < Weight(su, rank, s.tasks[i])
  {
    hide TodoWeight, Calls, StepStart, StepWaiting, ManifestsHeld, PayloadsHeld;
    if s.tasks[i].phase.Claimed? && !outcome.Fails? {
      ClaimedDecreases(su, rank, s, i);
    } else {
      hide BodyWeight;
    }
  }

  lemma ClaimedDecreases(su: Setup, rank: Digest -> nat, s: State, i: nat)
    requires i < |s.tasks| && s.tasks[i].phase.Claimed? && StepClaimed(su, s, i, s.tasks[i].phase.d) != s
    ensures var s' := StepClaimed(su, s, i, s.tasks[i].phase.d);
            && |s'.tasks| == |s.tasks| && (forall j :: 0 <= j < |s.tasks| && j != i ==> s'.tasks[j] == s.tasks[j])
            && Weight(su, rank, s'.tasks[i]) < Weight(su, rank, s.tasks[i])
  {
    hide TodoWeight, Calls, ManifestsHeld;
  }

  lemma StartDecreases(su: Setup, rank: Digest -> nat, s: State, i: nat)
    requires i < |s.tasks| && s.tasks[i].phase.Start?
    ensures Total(su, rank, StepStart(su, s, i).tasks) < Total(su, rank, s.tasks)
  {
    hide TodoWeight, BodyWeight, Total;
    TotalAfter(su, rank, s, StepStart(su, s, i), i);
  }

  /** Every step of the schedule does something. */
  predicate Busy(su: Setup, s: State, schedule: seq<(nat, Outcome)>)
    decreases |schedule|
  {
    schedule == [] ||
    var s' := Step(su, s, schedule[0].0, schedule[0].1);
    s' != s && Busy(su, s', schedule[1..])
  }

  /** On an acyclic graph the number of steps of a run is bounded, whatever the interleaving. */
  lemma {:induction false} EveryRunEnds(su: Setup, rank: Digest -> nat, s: State, schedule: seq<(nat, Outcome)>)
    requires su.Valid() && Inv(su, s) && Ranked(su.content, rank) && Busy(su, s, schedule)
    ensures |schedule| + Total(su, rank, Exec(su, s, schedule).tasks) <= Total(su, rank, s.tasks)
    decreases |schedule|
  {
    if schedule != [] {
      hide Inv, Step;
      StepDecreases(su, rank, s, schedule[0].0, schedule[0].1);
      StepKeepsInv(su, s, schedule[0].0, schedule[0].1);
      EveryRunEnds(su, rank, Step(su, s, schedule[0].0, schedule[0].1), schedule[1..]);
    }
  }

  // ----- No deadlock -----

  /** A task waits only for tasks started after it, for the calls of its object. */
  predicate WaitsForLater(su: Setup, s: State, i: nat)
    requires i < |s.tasks|
  {
    match s.tasks[i].phase
    case Waiting(d, todo, made) =>
      && (forall id :: id in made ==> i < id < |s.tasks| && s.tasks[id].call in Calls(su.ObjectOf(d)))
      && (forall k :: k in todo ==> k in Calls(su.ObjectOf(d)))
    case TagWaiting(_, _, child) => i < child < |s.tasks|
    case _ => true
  }

  predicate Ordered(su: Setup, s: State) {
    forall i :: 0 <= i < |s.tasks| ==> WaitsForLater(su, s, i)
  }

  lemma MovedWaitsForLater(su: Setup, s: State, i: nat, outcome: Outcome)
    requires i < |s.tasks| && WaitsForLater(su, s, i)
    ensures var s' := Step(su, s, i, outcome); i < |s'.tasks| && WaitsForLater(su, s', i)
  {
    hide Calls, ManifestsHeld, PayloadsHeld;
  }

  lemma StepKeepsOrder(su: Setup, s: State, i: nat, outcome: Outcome)
    requires Ordered(su, s)
    ensures Ordered(su, Step(su, s, i, outcome))
  {
    hide Calls, Step;
    var s' := Step(su, s, i, outcome);
    StepMovesOne(su, s, i, outcome);
    StepGrows(su, s, i, outcome);
    forall j | 0 <= j < |s'.tasks|
      ensures WaitsForLater(su, s', j)
    {
      if j < |s.tasks| {
        assert WaitsForLater(su, s, j);
        if j == i {
          MovedWaitsForLater(su, s, i, outcome);
        }
      }
    }
  }

  lemma {:induction false} ExecKeepsOrder(su: Setup, s: State, schedule: seq<(nat, Outcome)>)
    requires Ordered(su, s)
    ensures Ordered(su, Exec(su, s, schedule))
    decreases |schedule|
  {
    if schedule != [] {
      hide Ordered, Step;
      StepKeepsOrder(su, s, schedule[0].0, schedule[0].1);
      ExecKeepsOrder(su, Step(su, s, schedule[0].0, schedule[0].1), schedule[1..]);
    }
  }

  /** The last task that has not returned waits for nobody. */
  lemma {:induction false} LastUnfinished(s: State, n: nat) returns (i: nat)
    requires n <= |s.tasks| && !Succeeded(s)
    requires forall j :: n <= j < |s.tasks| ==> s.tasks[j].phase.Returned?
    ensures i < n && !s.tasks[i].phase.Returned?
    ensures forall j :: i < j < |s.tasks| ==> s.tasks[j].phase.Returned?
  {
    if s.tasks[n - 1].phase.Returned? {
      i := LastUnfinished(s, n - 1);
    } else {
      i := n - 1;
    }
  }

  lemma {:induction false} NoneHeld(su: Setup, tasks: seq<Task>)
    ensures (forall t :: t in tasks ==> !t.phase.Copying?) ==> PayloadsHeld(tasks) == 0
    ensures (forall t :: t in tasks ==> !HoldsManifest(su, t)) ==> ManifestsHeld(su, tasks) == 0
  {
    if tasks != [] {
      NoneHeld(su, tasks[..|tasks| - 1]);
    }
  }

  /** An entry of a manifest waits for nothing but a payload permit. */
  lemma EntryCanMove(su: Setup, s: State, i: nat)
    requires i < |s.tasks| && TaskOk(su, s, s.tasks[i]) && s.tasks[i].call.EntryCall?
    requires !s.tasks[i].phase.Returned? && !s.tasks[i].phase.Failed? && !s.tasks[i].phase.PayloadNext?
    ensures !s.tasks[i].phase.Claimed? && Step(su, s, i, Proceeds) != s
  {
  }

  /** A task that holds a manifest permit can move, or one of its entries can. */
  lemma HolderCanMove(su: Setup, s: State, i: nat) returns (j: nat)
    requires i < |s.tasks| && HoldsManifest(su, s.tasks[i]) && WaitsForLater(su, s, i)
    requires forall k :: 0 <= k < |s.tasks| ==> TaskOk(su, s, s.tasks[k])
    requires forall k :: 0 <= k < |s.tasks| ==> !s.tasks[k].phase.Failed? && !s.tasks[k].phase.PayloadNext?
    ensures j < |s.tasks| && !s.tasks[j].phase.Claimed? && Step(su, s, j, Proceeds) != s
  {
    var made := s.tasks[i].phase.made;
    if s.tasks[i].phase.todo == [] && !AllReturned(s, made) {
      j :| j in made && !(j < |s.tasks| && s.tasks[j].phase.Returned?);
      EntryCanMove(su, s, j);
    } else {
      j := i;
    }
  }

  /** With permits for at least one manifest and one payload, some task can move. */
  lemma SomeTaskMoves(su: Setup, s: State) returns (i: nat)
    requires su.manifestPermits > 0 && su.payloadPermits > 0 && Ordered(su, s) && !Succeeded(s)
    requires forall k :: 0 <= k < |s.tasks| ==> TaskOk(su, s, s.tasks[k]) && !s.tasks[k].phase.Failed?
    ensures Step(su, s, i, Proceeds) != s
  {
    hide Calls, CallsCover;
    NoneHeld(su, s.tasks);
    if t :| t in s.tasks && (t.phase.Copying? || t.phase.PayloadNext?) {
      if c :| c in s.tasks && c.phase.Copying? {
        i :| 0 <= i < |s.tasks| && s.tasks[i] == c;
      } else {
        i :| 0 <= i < |s.tasks| && s.tasks[i] == t;
      }
    } else if t :| t in s.tasks && HoldsManifest(su, t) {
      var k :| 0 <= k < |s.tasks| && s.tasks[k] == t;
      assert WaitsForLater(su, s, k);
      i := HolderCanMove(su, s, k);
    } else if t :| t in s.tasks && t.phase.Claimed? {
      i :| 0 <= i < |s.tasks| && s.tasks[i] == t;
    } else {
      i := LastUnfinished(s, |s.tasks|);
      assert WaitsForLater(su, s, i) && s.tasks[i] in s.tasks;
      LastCanMove(su, s, i);
    }
  }

  /**
    At every moment of every run in which no task has failed, either all tasks have returned
    or some task can take a step: tasks never wait for each other in a circle, neither for their
    calls nor for permits.
   */
  lemma NoDeadlock(su: Setup, items: seq<Call>, schedule: seq<(nat, Outcome)>) returns (i: nat)
    requires su.Valid() && TopLevel(items) && su.manifestPermits > 0 && su.payloadPermits > 0
    requires var s := Exec(su, Init(su, items), schedule);
             !Succeeded(s) && forall j :: 0 <= j < |s.tasks| ==> !s.tasks[j].phase.Failed?
    ensures var s := Exec(su, Init(su, items), schedule); Step(su, s, i, Proceeds) != s
  {
    var s := Exec(su, Init(su, items), schedule);
    ExecKeepsOrder(su, Init(su, items), schedule);
    ExecKeepsInv(su, Init(su, items), schedule);
    hide Ordered, TaskOk, Step;
    i := SomeTaskMoves(su, s);
  }

  /** A run without a failed task that can go no further has succeeded. */
  lemma FinishedRunSucceeds(su: Setup, items: seq<Call>, schedule: seq<(nat, Outcome)>)
    requires su.Valid() && TopLevel(items) && su.manifestPermits > 0 && su.payloadPermits > 0
    requires var s := Exec(su, Init(su, items), schedule);
             && (forall j :: 0 <= j < |s.tasks| ==> !s.tasks[j].phase.Failed?)
             && (forall i :: Step(su, s, i, Proceeds) == s)
    ensures var s := Exec(su, Init(su, items), schedule);
            Succeeded(s) && (Closed(su.initial) ==> Closed(s.dest))
  {
    hide *;
    if !Succeeded(Exec(su, Init(su, items), schedule)) {
      var i := NoDeadlock(su, items, schedule);
    } else if Closed(su.initial) {
      SuccessClosesDestination(su, items, schedule);
    }
  }

  lemma LastCanMove(su: Setup, s: State, i: nat)
    requires i < |s.tasks| && WaitsForLater(su, s, i)
    requires !s.tasks[i].phase.Returned? && !s.tasks[i].phase.Failed?
    requires !s.tasks[i].phase.Claimed? && !s.tasks[i].phase.PayloadNext?
    requires forall j :: i < j < |s.tasks| ==> s.tasks[j].phase.Returned?
    ensures Step(su, s, i, Proceeds) != s
  {
  }

  // ----- Without permits -----

  /** Nobody holds what there is no permit for, and nothing of that kind has been copied. */
  ghost predicate NothingCopied(su: Setup, s: State) {
    && (su.manifestPermits == 0 ==>
          && (forall i :: 0 <= i < |s.tasks| ==> !HoldsManifest(su, s.tasks[i]))
          && (forall d :: d in s.dest.objects && s.dest.objects[d].Manifest? ==> d in su.initial.objects))
    && (su.payloadPermits == 0 ==>
          (forall i :: 0 <= i < |s.tasks| ==> !s.tasks[i].phase.Copying?) && s.dest.payloads == su.initial.payloads)
  }

  /** What the moving task does without permits. */
  lemma MovedCopiesNothing(su: Setup, s: State, i: nat, outcome: Outcome)
    requires i < |s.tasks| && TaskOk(su, s, s.tasks[i])
    ensures var s' := Step(su, s, i, outcome);
            && i < |s'.tasks|
            && (su.manifestPermits == 0 && !HoldsManifest(su, s.tasks[i]) ==>
                  && !HoldsManifest(su, s'.tasks[i])
                  && forall d :: d in s'.dest.objects && s'.dest.objects[d].Manifest? ==>
                       d in s.dest.objects && s.dest.objects[d].Manifest?)
            && (su.payloadPermits == 0 && !s.tasks[i].phase.Copying? ==>
                  !s'.tasks[i].phase.Copying? && s'.dest.payloads == s.dest.payloads)
  {
    hide Calls, CallsCover, ManifestsHeld, PayloadsHeld;
  }

  lemma StepCopiesNothing(su: Setup, s: State, i: nat, outcome: Outcome)
    requires Inv(su, s) && NothingCopied(su, s)
    ensures NothingCopied(su, Step(su, s, i, outcome))
  {
    hide Calls, CallsCover, Step, TaskOk;
    if i < |s.tasks| {
      assert TaskOk(su, s, s.tasks[i]);
      hide Inv;
      MovedCopiesNothing(su, s, i, outcome);
      StepMovesOne(su, s, i, outcome);
    } else {
      NoStep(su, s, i, outcome);
    }
  }

  lemma NoStep(su: Setup, s: State, i: nat, outcome: Outcome)
    requires i >= |s.tasks|
    ensures Step(su, s, i, outcome) == s
  {
  }

  /** Without a permit a sync waits for ever: no manifest, and no payload, is ever copied. */
  lemma {:induction false} NoPermitNoCopy(su: Setup, s: State, schedule: seq<(nat, Outcome)>)
    requires su.Valid() && Inv(su, s) && NothingCopied(su, s)
    ensures NothingCopied(su, Exec(su, s, schedule))
    decreases |schedule|
  {
    if schedule != [] {
      hide Inv, Step, NothingCopied;
      StepCopiesNothing(su, s, schedule[0].0, schedule[0].1);
      StepKeepsInv(su, s, schedule[0].0, schedule[0].1);
      NoPermitNoCopy(su, Step(su, s, schedule[0].0, schedule[0].1), schedule[1..]);
    }
  }

  // ----- Schedules in parts -----

  lemma {:induction false} ExecAppend(su: Setup, s: State, a: seq<(nat, Outcome)>, b: seq<(nat, Outcome)>)
    ensures Exec(su, s, a + b) == Exec(su, Exec(su, s, a), b)
    decreases |a|
  {
    hide Step;
    if a == [] {
      assert a + b == b;
    } else {
      assert (a + b)[1..] == a[1..] + b;
      ExecAppend(su, Step(su, s, a[0].0, a[0].1), a[1..], b);
    }
  }

  lemma ExecOne(su: Setup, s: State, i: nat)
    ensures Exec(su, s, [(i, Proceeds)]) == Step(su, s, i, Proceeds)
  {
  }
}
