/**
  The runtime monitor of `crates/spfs/src/monitor.rs`, for a known mount namespace whose scans
  succeed: a poller turns the difference between two scans into events, a filter applies the
  events to the set of tracked processes, and the wait ends when that set is confirmed empty.
 */
module Monitor {

  type Pid = nat

  datatype Event = Fork(parent: Pid, pid: Pid) | Exit(pid: Pid)

  /** The tracked set after the filter has seen an event, and whether the event is passed on. */
  function Filtered(tracked: set<Pid>, e: Event): set<Pid> {
    match e
    case Fork(parent, pid) => if parent in tracked then tracked + {pid} else tracked
    case Exit(pid) => tracked - {pid}
  }

  predicate Passes(tracked: set<Pid>, e: Event) {
    match e
    case Fork(parent, _) => parent in tracked
    case Exit(pid) => pid in tracked
  }

  function Replay(tracked: set<Pid>, events: seq<Event>): set<Pid>
    decreases |events|
  {
    if events == [] then tracked else Replay(Filtered(tracked, events[0]), events[1..])
  }

  lemma {:induction false} ReplayConcat(tracked: set<Pid>, a: seq<Event>, b: seq<Event>)
    ensures Replay(tracked, a + b) == Replay(Replay(tracked, a), b)
    decreases |a|
  {
    if a == [] {
      assert a + b == b;
    } else {
      ReplayConcat(Filtered(tracked, a[0]), a[1..], b);
      assert (a + b)[1..] == a[1..] + b;
    }
  }

  /** The events of a poll: one fork for each new process, then one exit for each that is gone. */
  ghost predicate PollEvents(known: set<Pid>, scan: set<Pid>, events: seq<Event>) {
    exists parent, forks, exits ::
      parent in known && events == ForkAll(parent, forks) + ExitAll(exits) &&
      ListsSet(forks, scan - known) && ListsSet(exits, known - scan)
  }

  ghost predicate ListsSet(list: seq<Pid>, s: set<Pid>) {
    (forall p :: p in list <==> p in s) && forall i, j :: 0 <= i < j < |list| ==> list[i] != list[j]
  }

  function Members(pids: seq<Pid>): set<Pid> {
    set p | p in pids
  }

  function ForkAll(parent: Pid, pids: seq<Pid>): seq<Event> {
    seq(|pids|, i requires 0 <= i < |pids| => Fork(parent, pids[i]))
  }

  function ExitAll(pids: seq<Pid>): seq<Event> {
    seq(|pids|, i requires 0 <= i < |pids| => Exit(pids[i]))
  }

  lemma {:induction false} ReplayForks(tracked: set<Pid>, parent: Pid, pids: seq<Pid>)
    requires parent in tracked
    ensures Replay(tracked, ForkAll(parent, pids)) == tracked + Members(pids)
    decreases |pids|
  {
    if pids != [] {
      var events := ForkAll(parent, pids);
      assert events[1..] == ForkAll(parent, pids[1..]);
      ReplayForks(tracked + {pids[0]}, parent, pids[1..]);
    }
  }

  lemma {:induction false} ReplayExits(tracked: set<Pid>, pids: seq<Pid>)
    ensures Replay(tracked, ExitAll(pids)) == tracked - Members(pids)
    decreases |pids|
  {
    if pids != [] {
      var events := ExitAll(pids);
      assert events[1..] == ExitAll(pids[1..]);
      ReplayExits(tracked - {pids[0]}, pids[1..]);
    }
  }

  lemma ListedSet(list: seq<Pid>, s: set<Pid>)
    requires ListsSet(list, s)
    ensures Members(list) == s
  {
  }

  /** Replaying the events of a poll on what the poller knew gives what it scanned. */
  lemma PollReplays(known: set<Pid>, scan: set<Pid>, events: seq<Event>)
    requires PollEvents(known, scan, events)
    ensures Replay(known, events) == scan
  {
    var parent, forks, exits :|
      parent in known && events == ForkAll(parent, forks) + ExitAll(exits) &&
      ListsSet(forks, scan - known) && ListsSet(exits, known - scan);
    hide ListsSet, Replay;
    ReplayConcat(known, ForkAll(parent, forks), ExitAll(exits));
    ReplayForks(known, parent, forks);
    ListedSet(forks, scan - known);
    ReplayExits(known + (scan - known), exits);
    ListedSet(exits, known - scan);
    assert known + (scan - known) - (known - scan) == scan;
  }

  method ListOf(s: set<Pid>) returns (list: seq<Pid>)
    ensures ListsSet(list, s)
  {
    list := [];
    var todo := s;
    while todo != {}
      invariant todo <= s && ListsSet(list, s - todo)
    {
      var p :| p in todo;
      list := list + [p];
      todo := todo - {p};
    }
  }

  /** One poll, whatever order the sets are iterated in. */
  method Poll(known: set<Pid>, scan: set<Pid>) returns (events: seq<Event>)
    requires known != {}
    ensures PollEvents(known, scan, events)
    ensures Replay(known, events) == scan
  {
    var parent :| parent in known;
    var forks := ListOf(scan - known);
    var exits := ListOf(known - scan);
    events := ForkAll(parent, forks) + ExitAll(exits);
    PollReplays(known, scan, events);
  }

  /**
    Repair the tracked set from a scan. `moments` are its contents after each change: unless the
    scan is empty, none of them is.
   */
  method Repair(tracked: set<Pid>, scan: set<Pid>) returns (repaired: set<Pid>, moments: seq<set<Pid>>)
    ensures repaired == scan
    ensures scan != {} ==> forall i :: 0 <= i < |moments| ==> moments[i] != {}
  {
    if scan == {} {
      return {}, [{}];
    }
    repaired, moments := tracked, [];
    var todo := scan;
    while todo != {}
      invariant todo <= scan && repaired == tracked + (scan - todo)
      invariant forall i :: 0 <= i < |moments| ==> moments[i] != {}
    {
      var p :| p in todo;
      todo := todo - {p};
      repaired := repaired + {p};
      assert p in repaired;
      moments := moments + [repaired];
    }
    var extra := repaired - scan;
    while extra != {}
      invariant extra == repaired - scan && scan <= repaired
      invariant forall i :: 0 <= i < |moments| ==> moments[i] != {}
    {
      var p :| p in extra;
      extra := extra - {p};
      repaired := repaired - {p};
      assert scan <= repaired;
      moments := moments + [repaired];
    }
  }

  // ----- The poller and the monitor side by side -----

  /**
    `known` is what the poller scanned last, `polling` whether it still runs; `channel` holds the
    events on their way. `repaired` and `sawEmpty` record whether a repair happened and whether
    some scan was empty.
   */
  datatype State = State(known: set<Pid>, polling: bool, channel: seq<Event>, tracked: set<Pid>,
                         returned: bool, repaired: bool, sawEmpty: bool)

  datatype Choice =
    | Polls(scan: set<Pid>, events: seq<Event>)      // the poller's next tick
    | Receives(scan: set<Pid>)                       // the next event; `scan` is for a repair
    | TimesOut(first: set<Pid>, second: set<Pid>)    // no event for a while; scans for the repairs
    | StreamEnds

  function Init(scan: set<Pid>): State {
    State(scan, true, [], scan, scan == {}, false, scan == {})
  }

  function Repaired(s: State, scan: set<Pid>): State {
    s.(tracked := scan, repaired := true, sawEmpty := s.sawEmpty || scan == {})
  }

  /** The body of the waiting loop. */
  function Body(s: State, timeout: bool, first: set<Pid>, second: set<Pid>): State {
    var s1 := if s.tracked == {} then Repaired(s, first) else s;
    if s.tracked == {} && s1.tracked == {} then s1.(returned := true)
    else if timeout then Repaired(s1, second)
    else s1
  }

  /** The poller stops once its last scan was empty; the channel is then closed behind its events. */
  ghost function Step(s: State, choice: Choice): State {
    if s.returned then s
    else
      match choice
      case Polls(scan, events) =>
        if s.polling && s.known != {} && PollEvents(s.known, scan, events) then
          s.(known := scan, polling := scan != {}, channel := s.channel + events, sawEmpty := s.sawEmpty || scan == {})
        else s
      case Receives(scan) =>
        if s.channel == [] then s
        else
          var e := s.channel[0];
          var s1 := s.(channel := s.channel[1..], tracked := Filtered(s.tracked, e));
          if Passes(s.tracked, e) then Body(s1, false, scan, {}) else s1
      case TimesOut(first, second) => Body(s, true, first, second)
      case StreamEnds => if s.channel == [] && !s.polling then s.(returned := true) else s
  }

  ghost function Exec(s: State, choices: seq<Choice>): State
    decreases |choices|
  {
    if choices == [] then s else Exec(Step(s, choices[0]), choices[1..])
  }

  /** What every reachable state satisfies. */
  ghost predicate Inv(s: State) {
    && (!s.polling ==> s.sawEmpty)
    && (s.returned ==> s.sawEmpty)
    && (s.polling && !s.returned ==> s.known != {})
    && (!s.polling ==> s.known == {})
  }

  /** Delivering the events on their way would make the monitor track what the poller scanned last. */
  predicate InStep(s: State) {
    Replay(s.tracked, s.channel) == s.known
  }

  lemma StepKeepsInv(s: State, choice: Choice)
    requires Inv(s)
    ensures Inv(Step(s, choice))
  {
  }

  lemma StepKeepsStep(s: State, choice: Choice)
    requires InStep(s) && !Step(s, choice).repaired
    ensures InStep(Step(s, choice))
  {
    match choice
    case Polls(scan, events) =>
      if !s.returned && s.polling && PollEvents(s.known, scan, events) {
        PollReplays(s.known, scan, events);
        ReplayConcat(s.tracked, s.channel, events);
      }
    case _ =>
  }

  lemma {:induction false} ExecKeepsInv(s: State, choices: seq<Choice>)
    requires Inv(s)
    ensures Inv(Exec(s, choices))
    decreases |choices|
  {
    if choices != [] {
      StepKeepsInv(s, choices[0]);
      ExecKeepsInv(Step(s, choices[0]), choices[1..]);
    }
  }

  lemma {:induction false} RepairsStay(s: State, choices: seq<Choice>)
    requires s.repaired
    ensures Exec(s, choices).repaired
    decreases |choices|
  {
    if choices != [] {
      assert Step(s, choices[0]).repaired;
      RepairsStay(Step(s, choices[0]), choices[1..]);
    }
  }

  lemma {:induction false} ExecKeepsStep(s: State, choices: seq<Choice>)
    requires InStep(s) && !Exec(s, choices).repaired
    ensures InStep(Exec(s, choices))
    decreases |choices|
  {
    if choices != [] {
      hide InStep, Step;
      if Step(s, choices[0]).repaired {
        RepairsStay(Step(s, choices[0]), choices[1..]);
      } else {
        StepKeepsStep(s, choices[0]);
        ExecKeepsStep(Step(s, choices[0]), choices[1..]);
      }
    }
  }

  lemma {:induction false} EmptyScanIsMade(s: State, choices: seq<Choice>)
    requires Exec(s, choices).sawEmpty && !s.sawEmpty
    ensures exists c :: c in choices &&
              (((c.Polls? || c.Receives?) && c.scan == {}) || (c.TimesOut? && (c.first == {} || c.second == {})))
    decreases |choices|
  {
    if !Step(s, choices[0]).sawEmpty {
      EmptyScanIsMade(Step(s, choices[0]), choices[1..]);
    } else {
      assert choices[0] in choices;
    }
  }

  /** On every run, the wait is over only after some scan found no process: the first one or a later one. */
  lemma ReturnsOnlyAfterEmptyScan(scan: set<Pid>, choices: seq<Choice>)
    requires Exec(Init(scan), choices).returned
    ensures scan != {} ==>
              exists c :: c in choices &&
                (((c.Polls? || c.Receives?) && c.scan == {}) || (c.TimesOut? && (c.first == {} || c.second == {})))
  {
    ExecKeepsInv(Init(scan), choices);
    if scan != {} {
      EmptyScanIsMade(Init(scan), choices);
    }
  }

  /**
    The wait ends exactly when the last tracked process exits, or nothing is heard for a while with no
    process tracked, and the scan that follows finds none either; or when the poller has stopped and all
    its events have been seen.
   */
  lemma ReturnsIff(s: State, choice: Choice)
    requires !s.returned
    ensures Step(s, choice).returned <==>
              || (choice.Receives? && s.channel != [] && s.channel[0].Exit? && s.tracked == {s.channel[0].pid}
                  && choice.scan == {})
              || (choice.TimesOut? && s.tracked == {} && choice.first == {})
              || (choice.StreamEnds? && s.channel == [] && !s.polling)
  {
    if choice.Receives? && s.channel != [] && s.channel[0].Exit? {
      var pid := s.channel[0].pid;
      assert pid in s.tracked && s.tracked - {pid} == {} <==> s.tracked == {pid} by {
        if pid in s.tracked && s.tracked - {pid} == {} {
          assert s.tracked == {pid} + (s.tracked - {pid});
        }
      }
    }
  }

  /** A wait that is not over after a timeout tracks what the scan of that timeout has found. */
  lemma TimeoutRepairs(s: State, first: set<Pid>, second: set<Pid>)
    requires !s.returned && !Step(s, TimesOut(first, second)).returned
    ensures Step(s, TimesOut(first, second)).tracked == second
  {
  }

  /** Once all processes are gone, the wait is over after two timeouts at the latest. */
  lemma TwoTimeoutsReturn(s: State, first: set<Pid>, second: set<Pid>)
    ensures Exec(s, [TimesOut(first, {}), TimesOut({}, second)]).returned
  {
    var once := Step(s, TimesOut(first, {}));
    assert [TimesOut(first, {}), TimesOut({}, second)][1..] == [TimesOut({}, second)];
    assert [TimesOut({}, second)][1..] == [];
    if !once.returned {
      TimeoutRepairs(s, first, {});
      ReturnsIff(once, TimesOut({}, second));
    }
    hide Step;
    assert Exec(s, [TimesOut(first, {}), TimesOut({}, second)]) == Exec(once, [TimesOut({}, second)])
           == Exec(Step(once, TimesOut({}, second)), []);
    if once.returned {
      OverIsOver(once, TimesOut({}, second));
    }
  }

  lemma OverIsOver(s: State, choice: Choice)
    requires s.returned
    ensures Step(s, choice) == s
  {
  }

  // ----- Between repairs -----

  /** A stretch of a run begins here: repairs are counted from now on. */
  function FromHere(s: State): State { s.(repaired := false) }

  /**
    On every stretch without a repair, whenever no event is on its way, what is tracked is what
    the poller scanned last.
   */
  ghost predicate Follows(s: State) {
    forall choices ::
      var s' := Exec(FromHere(s), choices);
      !s'.repaired && s'.channel == [] ==> s'.tracked == s'.known
  }

  /** Delivering these events empties the tracked set on the way, which makes the monitor repair it. */
  predicate ForcesRepair(tracked: set<Pid>, events: seq<Event>)
    decreases |events|
  {
    events != [] &&
    var after := Filtered(tracked, events[0]);
    (Passes(tracked, events[0]) && after == {}) || ForcesRepair(after, events[1..])
  }

  /** Receive everything that is on its way. */
  function Drain(n: nat): seq<Choice> {
    if n == 0 then [] else [Receives({})] + Drain(n - 1)
  }

  lemma {:induction false} Drained(s: State)
    requires !s.returned && !s.repaired && !ForcesRepair(s.tracked, s.channel)
    ensures Exec(s, Drain(|s.channel|)) == s.(channel := [], tracked := Replay(s.tracked, s.channel))
    decreases |s.channel|
  {
    if s.channel != [] {
      var next := Step(s, Receives({}));
      var drain := Drain(|s.channel|);
      assert drain[0] == Receives({}) && drain[1..] == Drain(|next.channel|);
      assert next == s.(channel := s.channel[1..], tracked := Filtered(s.tracked, s.channel[0]));
      Drained(next);
    }
  }

  /** A forced repair comes on every stretch before the events have been delivered. */
  lemma {:induction false} RepairIsForced(s: State, choices: seq<Choice>)
    requires !s.repaired && ForcesRepair(s.tracked, s.channel)
    ensures var s' := Exec(s, choices); s'.repaired || s'.channel != []
    decreases |choices|
  {
    if choices != [] {
      var next := Step(s, choices[0]);
      if next.repaired {
        RepairsStay(next, choices[1..]);
      } else {
        StillForced(s, choices[0]);
        RepairIsForced(next, choices[1..]);
      }
    }
  }

  lemma StillForced(s: State, choice: Choice)
    requires !s.repaired && ForcesRepair(s.tracked, s.channel) && !Step(s, choice).repaired
    ensures var next := Step(s, choice); ForcesRepair(next.tracked, next.channel)
  {
    match choice
    case Polls(_, events) => ForcedByMore(s.tracked, s.channel, events);
    case _ =>
  }

  lemma {:induction false} ForcedByMore(tracked: set<Pid>, events: seq<Event>, more: seq<Event>)
    requires ForcesRepair(tracked, events)
    ensures ForcesRepair(tracked, events + more)
    decreases |events|
  {
    assert (events + more)[1..] == events[1..] + more;
    var after := Filtered(tracked, events[0]);
    if !(Passes(tracked, events[0]) && after == {}) {
      ForcedByMore(after, events[1..], more);
    }
  }

  /**
    From any moment before the wait is over, so also right after a repair, the monitor follows the
    poller until the next repair if and only if delivering the events on their way gives the last
    scan, or forces a repair itself.
   */
  lemma FollowsIff(s: State)
    requires !s.returned
    ensures Follows(s) <==> InStep(s) || ForcesRepair(s.tracked, s.channel)
  {
    var start := FromHere(s);
    if ForcesRepair(s.tracked, s.channel) {
      forall choices
        ensures var s' := Exec(start, choices); !s'.repaired && s'.channel == [] ==> s'.tracked == s'.known
      {
        RepairIsForced(start, choices);
      }
    } else if InStep(s) {
      forall choices
        ensures var s' := Exec(start, choices); !s'.repaired && s'.channel == [] ==> s'.tracked == s'.known
      {
        if !Exec(start, choices).repaired {
          ExecKeepsStep(start, choices);
        }
      }
    } else {
      Drained(start);
      var s' := Exec(start, Drain(|start.channel|));
      assert !s'.repaired && s'.channel == [] && s'.tracked != s'.known;
    }
  }

  /** A wait starts in step with the poller. */
  lemma StartsInStep(scan: set<Pid>)
    ensures Inv(Init(scan)) && InStep(Init(scan)) && !Init(scan).repaired
  {
  }

  /**
    A repair can put the monitor out of step for good: it finds a process before the poller does,
    and the poller names a parent that is no longer tracked for every process that is new to it.
   */
  lemma RepairLosesAProcess()
    ensures var repaired := Step(Init({1}), TimesOut({}, {5}));
            var choices := [Polls({5, 6}, [Fork(1, 5), Fork(1, 6), Exit(1)])] + Drain(3);
            var s := Exec(FromHere(repaired), choices);
            !s.repaired && s.channel == [] && s.tracked == {5} && s.known == {5, 6}
  {
    var events := [Fork(1, 5), Fork(1, 6), Exit(1)];
    var start := FromHere(Step(Init({1}), TimesOut({}, {5})));
    OnePoll(start.known, events);
    AllIgnored(events);
    var polled := Step(start, Polls({5, 6}, events));
    assert polled == State({5, 6}, true, events, {5}, false, false, false);
    hide Step, Replay, ForcesRepair, Drain;
    Drained(polled);
    assert ([Polls({5, 6}, events)] + Drain(3))[1..] == Drain(3);
  }

  /** A monitor that tracks only process 5 drops all three. */
  lemma AllIgnored(events: seq<Event>)
    requires events == [Fork(1, 5), Fork(1, 6), Exit(1)]
    ensures Replay({5}, events) == {5} && !ForcesRepair({5}, events)
  {
    var second, third := [Fork(1, 6), Exit(1)], [Exit(1)];
    assert events[1..] == second && second[1..] == third && third[1..] == [];
    var tracked: set<Pid> := {5};
    assert forall e :: e in events ==> Filtered(tracked, e) == tracked && !Passes(tracked, e);
    assert Replay(tracked, third) == Replay(tracked, []) && !ForcesRepair(tracked, third);
    assert Replay(tracked, second) == Replay(tracked, third) && !ForcesRepair(tracked, second);
  }

  lemma OnePoll(known: set<Pid>, events: seq<Event>)
    requires known == {1} && events == [Fork(1, 5), Fork(1, 6), Exit(1)]
    ensures PollEvents(known, {5, 6}, events)
  {
    var forks, exits: seq<Pid> := [5, 6], [1];
    assert {5, 6} - known == {5, 6} && known - {5, 6} == {1};
    assert ListsSet(forks, {5, 6} - known) && ListsSet(exits, known - {5, 6});
    assert events == ForkAll(1, forks) + ExitAll(exits);
  }
}
