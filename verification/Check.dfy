/**
  The integrity check of `crates/spfs/src/check.rs`, without a repair source.

  Every call of `check_digest` is a task, and a schedule picks which task moves next. A task that
  has its result hands it to the task that made the call, in the order in which the calls finish.
 */
module Check {
  import opened Graph

  // ----- Results and their summaries -----

  datatype PayloadResult = PayloadMissing(digest: Digest) | PayloadOk

  datatype BlobResult = BlobDuplicate | BlobMissing(digest: Digest) | BlobChecked(payload: PayloadResult)

  datatype CheckResult =
    | Duplicate
    | Ignorable
    | Missing(digest: Digest)
    | PlatformResult(results: seq<CheckResult>)
    | LayerResult(results: seq<CheckResult>)
    | ManifestResult(results: seq<CheckResult>)
    | BlobObject(blob: BlobResult)
    | InternalAnnotation
    | Annotation(value: BlobResult)

  datatype Summary = Summary(
    missingObjects: set<Digest>, checkedObjects: nat, missingPayloads: set<Digest>, checkedPayloads: nat)

  const NOTHING: Summary := Summary({}, 0, {}, 0)

  function Add(a: Summary, b: Summary): Summary {
    Summary(a.missingObjects + b.missingObjects, a.checkedObjects + b.checkedObjects,
            a.missingPayloads + b.missingPayloads, a.checkedPayloads + b.checkedPayloads)
  }

  function OfPayload(r: PayloadResult): Summary {
    match r
    case PayloadMissing(d) => NOTHING.(missingPayloads := {d})
    case PayloadOk => NOTHING.(checkedPayloads := 1)
  }

  function OfBlob(r: BlobResult): Summary {
    match r
    case BlobDuplicate => NOTHING
    case BlobMissing(d) => Summary({d}, 1, {}, 0)
    case BlobChecked(payload) => Add(OfPayload(payload), NOTHING.(checkedObjects := 1))
  }

  function Of(r: CheckResult): Summary {
    match r
    case Duplicate => NOTHING
    case Ignorable => NOTHING
    case Missing(d) => NOTHING.(missingObjects := {d})
    case PlatformResult(results) => Add(OfAll(results), NOTHING.(checkedObjects := 1))
    case LayerResult(results) => Add(OfAll(results), NOTHING.(checkedObjects := 1))
    case ManifestResult(results) => Add(OfAll(results), NOTHING.(checkedObjects := 1))
    case BlobObject(blob) => OfBlob(blob)
    case InternalAnnotation => NOTHING
    case Annotation(value) => OfBlob(value)
  }

  function OfAll(results: seq<CheckResult>): Summary {
    if results == [] then NOTHING else Add(OfAll(results[..|results| - 1]), Of(results[|results| - 1]))
  }

  /** The result of an annotation's blob; anything but a blob is an error. */
  function AsAnnotation(r: CheckResult): Option<CheckResult> {
    match r
    case Duplicate => Some(Annotation(BlobDuplicate))
    case Missing(d) => Some(Annotation(BlobMissing(d)))
    case BlobObject(blob) => Some(Annotation(blob))
    case _ => None
  }

  // ----- The tasks -----

  datatype Progress = LoadStarted | CheckStarted

  /** What is left to collect for an object: a call to make, or a result that needs none. */
  datatype Item = Call(digest: Digest, annotation: bool) | Fixed(result: CheckResult)

  datatype Phase =
    | Start
    | Loading
    | Waiting(obj: Object, todo: seq<Item>, results: seq<CheckResult>)
    | Done(result: CheckResult)
    | Delivered
    | Failed

  /** `owned` are the digests checked by this task and by the tasks whose results it holds. */
  datatype Task = Task(digest: Digest, annotation: bool, parent: Option<nat>, phase: Phase, owned: set<Digest>)

  datatype State = State(processed: map<Digest, Progress>, tasks: seq<Task>)

  function DigestItems(digests: seq<Digest>): (items: seq<Item>)
    ensures forall x :: x in items ==> x.Call? && x.digest in digests
    ensures forall d :: d in digests ==> Call(d, false) in items
  {
    if digests == [] then [] else [Call(digests[0], false)] + DigestItems(digests[1..])
  }

  function AnnotationItems(annotations: seq<AnnotationValue>): (items: seq<Item>)
    ensures forall x :: x in items && x.Fixed? ==> x.result == InternalAnnotation
    ensures forall x :: x in items && x.Call? ==> x.digest in AnnotationBlobs(annotations)
    ensures forall d :: d in AnnotationBlobs(annotations) ==> Call(d, true) in items
  {
    if annotations == [] then []
    else
      [if annotations[0].BlobRef? then Call(annotations[0].digest, true) else Fixed(InternalAnnotation)]
      + AnnotationItems(annotations[1..])
  }

  function Items(obj: Object): (items: seq<Item>)
    ensures forall x :: x in items && x.Fixed? ==> Of(x.result) == NOTHING
    ensures forall x :: x in items && x.Call? ==> x.digest in ChildObjects(obj)
    ensures forall d :: d in ChildObjects(obj) ==> Call(d, false) in items || Call(d, true) in items
  {
    match obj
    case Platform(stack) => DigestItems(stack)
    case Manifest(entries) => DigestItems(EntryBlobs(entries))
    case Blob(_) => []
    case Layer(manifest, annotations) =>
      [if manifest.Some? then Call(manifest.value, false) else Fixed(Ignorable)] +
      (if annotations == [] then [Fixed(InternalAnnotation)] else AnnotationItems(annotations))
  }

  function ResultFor(obj: Object, results: seq<CheckResult>): CheckResult {
    match obj
    case Platform(_) => PlatformResult(results)
    case Layer(_, _) => LayerResult(results)
    case Manifest(_) => ManifestResult(results)
    case Blob(_) => Ignorable
  }

  function Init(roots: seq<Digest>): State {
    State(map[], seq(|roots|, i requires 0 <= i < |roots| => Task(roots[i], false, None, Start, {})))
  }

  function SetTask(s: State, i: nat, phase: Phase, owned: set<Digest>): State
    requires i < |s.tasks|
  {
    s.(tasks := s.tasks[i := s.tasks[i].(phase := phase, owned := owned)])
  }

  function StepStart(s: State, i: nat): State
    requires i < |s.tasks|
  {
    var d := s.tasks[i].digest;
    if d in s.processed then SetTask(s, i, Done(Duplicate), {})
    else SetTask(s, i, Loading, {d}).(processed := s.processed[d := LoadStarted])
  }

  function StepLoading(repo: Repo, s: State, i: nat): State
    requires i < |s.tasks|
  {
    var d := s.tasks[i].digest;
    if d !in repo.objects then SetTask(s, i, Done(Missing(d)), {d})
    else if d in s.processed && s.processed[d].CheckStarted? then SetTask(s, i, Done(Duplicate), {d})
    else
      var checking := s.(processed := s.processed[d := CheckStarted]);
      match repo.objects[d]
      case Blob(p) =>
        SetTask(checking, i,
                Done(BlobObject(BlobChecked(if p in repo.payloads then PayloadOk else PayloadMissing(p)))), {d})
      case _ => SetTask(checking, i, Waiting(repo.objects[d], Items(repo.objects[d]), []), {d})
  }

  predicate CallsFinished(s: State, i: nat) {
    forall k :: 0 <= k < |s.tasks| && s.tasks[k].parent == Some(i) ==> s.tasks[k].phase.Delivered?
  }

  /** Platforms and manifests make all their calls at once, a layer makes one at a time. */
  function StepWaiting(s: State, i: nat): State
    requires i < |s.tasks| && s.tasks[i].phase.Waiting?
  {
    var t := s.tasks[i];
    var Waiting(obj, todo, results) := t.phase;
    if todo != [] && (!obj.Layer? || CallsFinished(s, i)) then
      match todo[0]
      case Fixed(result) => SetTask(s, i, Waiting(obj, todo[1..], results + [result]), t.owned)
      case Call(c, annotation) =>
        var s' := SetTask(s, i, Waiting(obj, todo[1..], results), t.owned);
        s'.(tasks := s'.tasks + [Task(c, annotation, Some(i), Start, {})])
    else if todo == [] && CallsFinished(s, i) then SetTask(s, i, Done(ResultFor(obj, results)), t.owned)
    else s
  }

  /** A finished call hands its result, and what it owns, to the task that made it. */
  function StepDone(s: State, i: nat): State
    requires i < |s.tasks| && s.tasks[i].phase.Done?
  {
    var t := s.tasks[i];
    if t.parent.Some? && t.parent.value < |s.tasks| && t.parent.value != i
        && s.tasks[t.parent.value].phase.Waiting? then
      var p := s.tasks[t.parent.value];
      var r := if t.annotation then AsAnnotation(t.phase.result) else Some(t.phase.result);
      var given := SetTask(s, i, Delivered, {});
      if r.None? then SetTask(given, t.parent.value, Failed, p.owned + t.owned)
      else
        SetTask(given, t.parent.value, Waiting(p.phase.obj, p.phase.todo, p.phase.results + [r.value]),
                p.owned + t.owned)
    else s
  }

  /** How many tasks hold a permit: each does from loading its object until it has its result. */
  function Open(tasks: seq<Task>): nat {
    if tasks == [] then 0
    else Open(tasks[..|tasks| - 1]) + (if tasks[|tasks| - 1].phase.Waiting? then 1 else 0)
  }

  /** A root that has been taken up and has no result yet. */
  predicate InFlight(t: Task) {
    t.parent.None? && !t.phase.Start? && !t.phase.Done?
  }

  function RootsInFlight(tasks: seq<Task>): nat {
    if tasks == [] then 0
    else RootsInFlight(tasks[..|tasks| - 1]) + (if InFlight(tasks[|tasks| - 1]) then 1 else 0)
  }

  /** A root that has not been taken up. */
  predicate WaitingRoot(tasks: seq<Task>, i: nat) {
    i < |tasks| && tasks[i].parent.None? && tasks[i].phase.Start?
  }

  /**
    What holds a check back: the permits for objects, the number of roots in flight, and which of the
    roots may be taken up next.
   */
  datatype Limits = Limits(permits: nat, roots: nat, admits: (seq<Task>, nat) -> bool) {

    /** No more roots are in flight than that, and as long as none is, one can be taken up. */
    ghost predicate Valid() {
      && (forall tasks, i :: admits(tasks, i) ==> RootsInFlight(tasks) < roots)
      && (forall tasks, i :: RootsInFlight(tasks) == 0 && WaitingRoot(tasks, i) ==> SomeAdmitted(tasks))
    }

    ghost predicate SomeAdmitted(tasks: seq<Task>) {
      exists i :: WaitingRoot(tasks, i) && admits(tasks, i)
    }
  }

  predicate Admitted(lim: Limits, tasks: seq<Task>, i: nat)
    requires i < |tasks|
  {
    tasks[i].parent.Some? || lim.admits(tasks, i)
  }

  /**
    A root waits until it is taken up, and a task that has not loaded its object yet for one of the
    permits.
   */
  function Step(repo: Repo, lim: Limits, s: State, i: nat, ok: bool): State {
    if i >= |s.tasks| then s
    else
      match s.tasks[i].phase
      case Start => if Admitted(lim, s.tasks, i) then StepStart(s, i) else s
      case Loading =>
        if Open(s.tasks) >= lim.permits then s
        else if ok then StepLoading(repo, s, i)
        else SetTask(s, i, Failed, s.tasks[i].owned)
      case Waiting(_, _, _) => StepWaiting(s, i)
      case Done(_) => StepDone(s, i)
      case Delivered => s
      case Failed => s
  }

  function Exec(repo: Repo, lim: Limits, s: State, schedule: seq<(nat, bool)>): State
    decreases |schedule|
  {
    if schedule == [] then s
    else Exec(repo, lim, Step(repo, lim, s, schedule[0].0, schedule[0].1), schedule[1..])
  }

  // ----- What a summary says about a set of digests -----

  function AbsentObjects(repo: Repo, digests: set<Digest>): set<Digest> {
    set d | d in digests && d !in repo.objects
  }

  function PresentObjects(repo: Repo, digests: set<Digest>): set<Digest> {
    set d | d in digests && d in repo.objects
  }

  function PresentBlobs(repo: Repo, digests: set<Digest>): set<Digest> {
    set d | d in digests && d in repo.objects && repo.objects[d].Blob?
  }

  function AbsentPayloads(repo: Repo, digests: set<Digest>): set<Digest> {
    set d | d in PresentBlobs(repo, digests) && d !in repo.payloads
  }

  function PresentPayloads(repo: Repo, digests: set<Digest>): set<Digest> {
    set d | d in PresentBlobs(repo, digests) && d in repo.payloads
  }

  /**
    The summary lists exactly what is absent among the digests and counts what is there. A blob that is
    absent counts as an object only if an annotation refers to it.
   */
  predicate Reports(repo: Repo, summary: Summary, digests: set<Digest>) {
    && summary.missingObjects == AbsentObjects(repo, digests)
    && summary.missingPayloads == AbsentPayloads(repo, digests)
    && summary.checkedPayloads == |PresentPayloads(repo, digests)|
    && |PresentObjects(repo, digests)| <= summary.checkedObjects <= |digests|
  }

  lemma ReportsAdd(repo: Repo, a: Summary, x: set<Digest>, b: Summary, y: set<Digest>)
    requires Reports(repo, a, x) && Reports(repo, b, y) && x !! y
    ensures Reports(repo, Add(a, b), x + y)
  {
    assert PresentPayloads(repo, x + y) == PresentPayloads(repo, x) + PresentPayloads(repo, y);
    assert AbsentObjects(repo, x + y) == AbsentObjects(repo, x) + AbsentObjects(repo, y);
    assert AbsentPayloads(repo, x + y) == AbsentPayloads(repo, x) + AbsentPayloads(repo, y);
    assert PresentObjects(repo, x + y) == PresentObjects(repo, x) + PresentObjects(repo, y);
    assert PresentObjects(repo, x) !! PresentObjects(repo, y);
  }

  /** An object that is there and is not a blob is one more object, and nothing else. */
  lemma ReportsWith(repo: Repo, a: Summary, x: set<Digest>, d: Digest)
    requires Reports(repo, a, x) && d in repo.objects && !repo.objects[d].Blob? && d !in x
    ensures Reports(repo, Add(a, NOTHING.(checkedObjects := 1)), x + {d})
  {
    assert PresentObjects(repo, x + {d}) == PresentObjects(repo, x) + {d};
    assert AbsentObjects(repo, x + {d}) == AbsentObjects(repo, x);
    assert PresentBlobs(repo, x + {d}) == PresentBlobs(repo, x);
    assert PresentPayloads(repo, x + {d}) == PresentPayloads(repo, x);
    assert AbsentPayloads(repo, x + {d}) == AbsentPayloads(repo, x);
  }

  lemma AppendResult(results: seq<CheckResult>, r: CheckResult)
    ensures OfAll(results + [r]) == Add(OfAll(results), Of(r))
  {
  }

  lemma AnnotationReports(repo: Repo, r: CheckResult, x: set<Digest>)
    requires AsAnnotation(r).Some? && Reports(repo, Of(r), x)
    ensures Reports(repo, Of(AsAnnotation(r).value), x)
  {
    SameReport(r);
    if r.Missing? {
      assert r.digest in AbsentObjects(repo, x);
      OneAtLeast(x, r.digest);
      OneMissing(repo, x, r.digest);
    }
    hide Of, AsAnnotation, AbsentObjects, AbsentPayloads, PresentPayloads, PresentObjects;
  }

  lemma OneAtLeast(x: set<Digest>, d: Digest)
    requires d in x
    ensures |x| >= 1
  {
    assert {d} <= x && |x| == |{d}| + |x - {d}| by {
      assert x == {d} + (x - {d});
    }
  }

  lemma OneMissing(repo: Repo, x: set<Digest>, d: Digest)
    requires d in x && d !in repo.objects
    ensures |PresentObjects(repo, x)| <= |x| - 1
  {
    var present := PresentObjects(repo, x);
    assert x == {d} + (x - {d}) && x - {d} == present + (x - {d} - present);
  }

  /** An annotation adds to the count of objects at most. */
  lemma SameReport(r: CheckResult)
    requires AsAnnotation(r).Some?
    ensures var a, b := Of(r), Of(AsAnnotation(r).value);
            && a.missingObjects == b.missingObjects && a.missingPayloads == b.missingPayloads
            && a.checkedPayloads == b.checkedPayloads
            && b.checkedObjects == if r.Missing? then 1 else a.checkedObjects
  {
    match r
    case Duplicate =>
    case Missing(_) =>
    case BlobObject(_) =>
  }

  /** A layer fails whose annotation refers to something other than a blob. */
  lemma OtherAnnotationsFail(s: State, i: nat, p: nat)
    requires i < |s.tasks| && p < |s.tasks| && i != p && s.tasks[i].annotation && s.tasks[i].parent == Some(p)
    requires s.tasks[i].phase.Done? && s.tasks[p].phase.Waiting?
    ensures var r := s.tasks[i].phase.result;
            StepDone(s, i).tasks[p].phase.Failed? <==> !r.Duplicate? && !r.Missing? && !r.BlobObject?
  {
  }

  /** How many tasks hold a permit. */
  lemma {:induction false} OpenCount(tasks: seq<Task>)
    ensures Open(tasks) == |set k | 0 <= k < |tasks| && tasks[k].phase.Waiting?|
  {
    if tasks != [] {
      var init, last := tasks[..|tasks| - 1], |tasks| - 1;
      OpenCount(init);
      var few := set k | 0 <= k < |init| && init[k].phase.Waiting?;
      assert (set k | 0 <= k < |tasks| && tasks[k].phase.Waiting?)
          == if tasks[last].phase.Waiting? then few + {last} else few;
    }
  }

  // ----- The invariant -----

  /** Every processed digest is owned by exactly one task. */
  ghost predicate Ownership(s: State) {
    && (forall i :: 0 <= i < |s.tasks| ==> s.tasks[i].owned <= s.processed.Keys)
    && (forall i, j :: 0 <= i < |s.tasks| && 0 <= j < |s.tasks| && i != j ==> s.tasks[i].owned !! s.tasks[j].owned)
    && (forall d :: d in s.processed ==> exists i :: 0 <= i < |s.tasks| && d in s.tasks[i].owned)
  }

  predicate TaskOk(repo: Repo, s: State, t: Task) {
    match t.phase
    case Start => t.owned == {}
    case Loading => t.owned == {t.digest} && t.digest in s.processed && s.processed[t.digest].LoadStarted?
    case Waiting(obj, todo, results) =>
      && t.digest in repo.objects && obj == repo.objects[t.digest] && !obj.Blob?
      && t.digest in t.owned && t.digest in s.processed
      && Reports(repo, OfAll(results), t.owned - {t.digest})
      && forall x :: x in todo ==> x in Items(obj)
    case Done(result) => t.digest in s.processed && Reports(repo, Of(result), t.owned)
    case Delivered => t.digest in s.processed && t.owned == {} && t.parent.Some?
    case Failed => true
  }

  predicate ChildrenProcessed(repo: Repo, s: State, d: Digest) {
    d in repo.objects ==> forall c :: c in ChildObjects(repo.objects[d]) ==> c in s.processed
  }

  predicate CalledBy(s: State, i: nat, c: Digest) {
    exists k :: 0 <= k < |s.tasks| && s.tasks[k].parent == Some(i) && s.tasks[k].digest == c
  }

  /** Each child is processed, still to be called, or has been called. */
  predicate ChildrenCovered(s: State, i: nat)
    requires i < |s.tasks| && s.tasks[i].phase.Waiting?
  {
    var Waiting(obj, todo, _) := s.tasks[i].phase;
    forall c :: c in ChildObjects(obj) ==>
      c in s.processed || Call(c, false) in todo || Call(c, true) in todo || CalledBy(s, i, c)
  }

  /** The task is on its way through the children of the digest, or it has failed. */
  predicate WorksOn(s: State, i: nat, d: Digest)
    requires i < |s.tasks|
  {
    && s.tasks[i].digest == d
    && (s.tasks[i].phase.Loading? || s.tasks[i].phase.Failed? || (s.tasks[i].phase.Waiting? && ChildrenCovered(s, i)))
  }

  predicate Covered(repo: Repo, s: State, d: Digest) {
    ChildrenProcessed(repo, s, d) || exists i :: 0 <= i < |s.tasks| && WorksOn(s, i, d)
  }

  ghost predicate Coverage(repo: Repo, s: State) {
    forall d :: d in s.processed ==> Covered(repo, s, d)
  }

  /** Calls come after the task that makes them; the first tasks are the roots. */
  ghost predicate Shape(repo: Repo, roots: seq<Digest>, s: State) {
    && |roots| <= |s.tasks|
    && (forall i :: 0 <= i < |roots| ==> s.tasks[i].digest == roots[i] && s.tasks[i].parent.None?)
    && (forall i :: |roots| <= i < |s.tasks| ==> s.tasks[i].parent.Some? && s.tasks[i].parent.value < i)
    && (forall i :: 0 <= i < |s.tasks| ==> Reachable(repo.objects, RootSet(roots), s.tasks[i].digest))
    && (forall d :: d in s.processed ==> Reachable(repo.objects, RootSet(roots), d))
  }

  function RootSet(roots: seq<Digest>): set<Digest> {
    set i | 0 <= i < |roots| :: roots[i]
  }

  ghost predicate Inv(repo: Repo, roots: seq<Digest>, s: State) {
    && Ownership(s)
    && (forall i :: 0 <= i < |s.tasks| ==> TaskOk(repo, s, s.tasks[i]))
    && Coverage(repo, s)
    && Shape(repo, roots, s)
  }

  ghost predicate BlobsAddressed(repo: Repo) {
    forall d :: d in repo.objects && repo.objects[d].Blob? ==> repo.objects[d].payload == d
  }

  /**
    A step that moves task `i` on, may append one fresh call, and may process the digest of
    task `i`; nothing else changes.
   */
  ghost predicate Moves(s: State, s': State, i: nat) {
    && i < |s.tasks| <= |s'.tasks|
    && (forall j :: 0 <= j < |s.tasks| && j != i ==> s'.tasks[j] == s.tasks[j])
    && s'.tasks[i] == s.tasks[i].(phase := s'.tasks[i].phase, owned := s'.tasks[i].owned)
    && (forall j :: |s.tasks| <= j < |s'.tasks| ==> s'.tasks[j].phase.Start? && s'.tasks[j].owned == {})
    && s.processed.Keys <= s'.processed.Keys <= s.processed.Keys + {s.tasks[i].digest}
    && (forall d :: d in s.processed && d != s.tasks[i].digest ==> s'.processed[d] == s.processed[d])
  }

  lemma CalledByStays(s: State, s': State, i: nat, p: nat, c: Digest)
    requires Moves(s, s', i) && CalledBy(s, p, c)
    ensures CalledBy(s', p, c)
  {
  }

  lemma OthersStayCovered(repo: Repo, s: State, s': State, i: nat, d: Digest)
    requires Moves(s, s', i) && Covered(repo, s, d) && s.tasks[i].digest != d
    ensures Covered(repo, s', d)
  {
    if !ChildrenProcessed(repo, s, d) {
      var j :| 0 <= j < |s.tasks| && WorksOn(s, j, d);
      if s.tasks[j].phase.Waiting? {
        forall c | CalledBy(s, j, c)
          ensures CalledBy(s', j, c)
        {
          CalledByStays(s, s', i, j, c);
        }
      }
      assert WorksOn(s', j, d);
    }
  }

  lemma OwnershipStays(s: State, s': State, i: nat)
    requires Ownership(s) && Moves(s, s', i)
    requires s'.tasks[i].owned == s.tasks[i].owned + (s'.processed.Keys - s.processed.Keys)
    ensures Ownership(s')
  {
  }

  lemma OtherTaskStaysOk(repo: Repo, s: State, s': State, i: nat, j: nat)
    requires Moves(s, s', i) && Ownership(s') && j < |s.tasks| && j != i && TaskOk(repo, s, s.tasks[j])
    requires s'.processed != s.processed ==> s.tasks[i].digest in s'.tasks[i].owned
    ensures TaskOk(repo, s', s'.tasks[j])
  {
    if s.tasks[j].phase.Loading? && s.tasks[j].digest == s.tasks[i].digest {
      assert s.tasks[j].digest in s'.tasks[j].owned;
      assert s'.tasks[j].owned !! s'.tasks[i].owned;
      assert s'.processed == s.processed;
    }
  }

  lemma ShapeStays(repo: Repo, roots: seq<Digest>, s: State, s': State, i: nat)
    requires Shape(repo, roots, s) && Moves(s, s', i)
    requires forall j :: |s.tasks| <= j < |s'.tasks| ==>
               s'.tasks[j].parent == Some(i) && Edge(repo.objects, s.tasks[i].digest, s'.tasks[j].digest)
    ensures Shape(repo, roots, s')
  {
    hide Reachable, RootSet, Edge;
    forall j | 0 <= j < |s'.tasks|
      ensures Reachable(repo.objects, RootSet(roots), s'.tasks[j].digest)
    {
      if j >= |s.tasks| {
        ReachableStep(repo.objects, RootSet(roots), s.tasks[i].digest, s'.tasks[j].digest);
      } else {
        assert s'.tasks[j].digest == s.tasks[j].digest;
      }
    }
    forall d | d in s'.processed
      ensures Reachable(repo.objects, RootSet(roots), d)
    {
      assert d in s.processed || d == s.tasks[i].digest;
    }
  }

  lemma CoverageStays(repo: Repo, s: State, s': State, i: nat)
    requires Coverage(repo, s) && Moves(s, s', i)
    requires s.tasks[i].digest in s'.processed ==> Covered(repo, s', s.tasks[i].digest)
    ensures Coverage(repo, s')
  {
    forall d | d in s'.processed
      ensures Covered(repo, s', d)
    {
      if d != s.tasks[i].digest {
        OthersStayCovered(repo, s, s', i, d);
      }
    }
  }

  /** What a step that moves one task has to show. */
  ghost predicate GoodMove(repo: Repo, s: State, s': State, i: nat) {
    && Moves(s, s', i)
    && s'.tasks[i].owned == s.tasks[i].owned + (s'.processed.Keys - s.processed.Keys)
    && (s'.processed != s.processed ==> s.tasks[i].digest in s'.tasks[i].owned)
    && TaskOk(repo, s', s'.tasks[i])
    && (s.tasks[i].digest in s'.processed ==> Covered(repo, s', s.tasks[i].digest))
    && (forall j :: |s.tasks| <= j < |s'.tasks| ==>
          s'.tasks[j].parent == Some(i) && Edge(repo.objects, s.tasks[i].digest, s'.tasks[j].digest))
  }

  lemma InvAfterMove(repo: Repo, roots: seq<Digest>, s: State, s': State, i: nat)
    requires Inv(repo, roots, s) && GoodMove(repo, s, s', i)
    ensures Inv(repo, roots, s')
  {
    OwnershipStays(s, s', i);
    ShapeStays(repo, roots, s, s', i);
    CoverageStays(repo, s, s', i);
    forall j | 0 <= j < |s'.tasks|
      ensures TaskOk(repo, s', s'.tasks[j])
    {
      if j < |s.tasks| && j != i {
        OtherTaskStaysOk(repo, s, s', i, j);
      }
    }
  }

  lemma StartMoves(repo: Repo, s: State, i: nat)
    requires i < |s.tasks| && s.tasks[i].phase.Start? && TaskOk(repo, s, s.tasks[i])
    requires s.tasks[i].digest in s.processed ==> Covered(repo, s, s.tasks[i].digest)
    ensures GoodMove(repo, s, StepStart(s, i), i)
  {
    var s', d := StepStart(s, i), s.tasks[i].digest;
    if d in s.processed {
      assert PresentBlobs(repo, {}) == {};
      SameDigestCovered(repo, s, s', i, d);
    } else {
      assert WorksOn(s', i, d);
    }
  }

  lemma StartKeepsInv(repo: Repo, roots: seq<Digest>, s: State, i: nat)
    requires Inv(repo, roots, s) && i < |s.tasks| && s.tasks[i].phase.Start?
    ensures Inv(repo, roots, StepStart(s, i))
  {
    StartMoves(repo, s, i);
    InvAfterMove(repo, roots, s, StepStart(s, i), i);
  }

  /** A task that did not work on the digest's children does not uncover them by moving on. */
  lemma SameDigestCovered(repo: Repo, s: State, s': State, i: nat, d: Digest)
    requires Moves(s, s', i) && Covered(repo, s, d) && !WorksOn(s, i, d)
    ensures Covered(repo, s', d)
  {
    if !ChildrenProcessed(repo, s, d) {
      var j :| 0 <= j < |s.tasks| && WorksOn(s, j, d);
      if s.tasks[j].phase.Waiting? {
        forall c | CalledBy(s, j, c)
          ensures CalledBy(s', j, c)
        {
          CalledByStays(s, s', i, j, c);
        }
      }
      assert WorksOn(s', j, d);
    }
  }

  lemma BlobReports(repo: Repo, d: Digest)
    requires d in repo.objects && repo.objects[d].Blob?
    ensures Reports(repo, OfBlob(BlobChecked(if d in repo.payloads then PayloadOk else PayloadMissing(d))), {d})
  {
    assert PresentPayloads(repo, {d}) == if d in repo.payloads then {d} else {};
    assert AbsentPayloads(repo, {d}) == if d in repo.payloads then {} else {d};
    assert PresentObjects(repo, {d}) == {d};
  }

  /** Processing the digest of a task while moving it on is a move. */
  lemma SetTaskMoves(s: State, i: nat, phase: Phase, owned: set<Digest>, progress: Progress)
    requires i < |s.tasks|
    ensures var s' := SetTask(s.(processed := s.processed[s.tasks[i].digest := progress]), i, phase, owned);
            Moves(s, s', i) && |s'.tasks| == |s.tasks|
  {
  }

  lemma LeafCovered(repo: Repo, s: State, d: Digest)
    requires d in repo.objects ==> repo.objects[d].Blob?
    ensures Covered(repo, s, d)
  {
  }

  lemma LoadingMissingMoves(repo: Repo, s: State, i: nat)
    requires i < |s.tasks| && s.tasks[i].phase.Loading? && TaskOk(repo, s, s.tasks[i])
    requires s.tasks[i].digest !in repo.objects
    ensures GoodMove(repo, s, StepLoading(repo, s, i), i)
  {
    var s', d := StepLoading(repo, s, i), s.tasks[i].digest;
    assert PresentPayloads(repo, {d}) == {};
    LeafCovered(repo, s', d);
  }

  lemma BlobTaskOk(repo: Repo, s: State, t: Task)
    requires t.digest in repo.objects && repo.objects[t.digest].Blob? && t.digest in s.processed
             && t.owned == {t.digest}
    requires t.phase == Done(BlobObject(BlobChecked(
               if t.digest in repo.payloads then PayloadOk else PayloadMissing(t.digest))))
    ensures TaskOk(repo, s, t)
  {
    BlobReports(repo, t.digest);
  }

  lemma LoadingBlobMoves(repo: Repo, s: State, i: nat)
    requires i < |s.tasks| && s.tasks[i].phase.Loading? && TaskOk(repo, s, s.tasks[i])
    requires s.tasks[i].digest in repo.objects && repo.objects[s.tasks[i].digest] == Blob(s.tasks[i].digest)
    ensures GoodMove(repo, s, StepLoading(repo, s, i), i)
  {
    var s', d := StepLoading(repo, s, i), s.tasks[i].digest;
    var result := BlobObject(BlobChecked(if d in repo.payloads then PayloadOk else PayloadMissing(d)));
    SetTaskMoves(s, i, Done(result), {d}, CheckStarted);
    BlobTaskOk(repo, s', s'.tasks[i]);
    LeafCovered(repo, s', d);
  }

  lemma LoadingInnerMoves(repo: Repo, s: State, i: nat)
    requires i < |s.tasks| && s.tasks[i].phase.Loading? && TaskOk(repo, s, s.tasks[i])
    requires s.tasks[i].digest in repo.objects && !repo.objects[s.tasks[i].digest].Blob?
    ensures GoodMove(repo, s, StepLoading(repo, s, i), i)
  {
    var s', d := StepLoading(repo, s, i), s.tasks[i].digest;
    assert PresentPayloads(repo, {}) == {};
    assert s'.tasks[i].owned - {d} == {};
    assert ChildrenCovered(s', i);
    assert WorksOn(s', i, d);
  }

  lemma LoadingKeepsInv(repo: Repo, roots: seq<Digest>, s: State, i: nat)
    requires Inv(repo, roots, s) && BlobsAddressed(repo) && i < |s.tasks| && s.tasks[i].phase.Loading?
    ensures Inv(repo, roots, StepLoading(repo, s, i))
  {
    if s.tasks[i].digest !in repo.objects {
      LoadingMissingMoves(repo, s, i);
    } else if repo.objects[s.tasks[i].digest].Blob? {
      LoadingBlobMoves(repo, s, i);
    } else {
      LoadingInnerMoves(repo, s, i);
    }
    InvAfterMove(repo, roots, s, StepLoading(repo, s, i), i);
  }

  /** All calls of a task are finished, and none is left to be made: its children are processed. */
  lemma FinishedCallsProcessed(repo: Repo, s: State, i: nat)
    requires i < |s.tasks| && s.tasks[i].phase.Waiting? && ChildrenCovered(s, i)
    requires s.tasks[i].phase.todo == [] && CallsFinished(s, i)
    requires forall k :: 0 <= k < |s.tasks| ==> TaskOk(repo, s, s.tasks[k])
    ensures forall c :: c in ChildObjects(s.tasks[i].phase.obj) ==> c in s.processed
  {
  }

  /** Taking the first item off the list leaves every child accounted for. */
  lemma NextItemCovered(s: State, s': State, i: nat)
    requires Moves(s, s', i) && s.tasks[i].phase.Waiting? && s.tasks[i].phase.todo != []
    requires s'.tasks[i].phase.Waiting? && s'.tasks[i].phase.obj == s.tasks[i].phase.obj
    requires s'.tasks[i].phase.todo == s.tasks[i].phase.todo[1..]
    requires s.tasks[i].phase.todo[0].Call? ==>
               |s'.tasks| == |s.tasks| + 1 && s'.tasks[|s.tasks|].parent == Some(i)
               && s'.tasks[|s.tasks|].digest == s.tasks[i].phase.todo[0].digest
    requires ChildrenCovered(s, i)
    ensures ChildrenCovered(s', i)
  {
  }

  lemma AppendNothing(results: seq<CheckResult>, r: CheckResult)
    requires Of(r) == NOTHING
    ensures OfAll(results + [r]) == OfAll(results)
  {
    AppendResult(results, r);
    AddNothing(OfAll(results));
  }

  lemma AddNothing(a: Summary)
    ensures Add(a, NOTHING) == a
  {
  }

  lemma FixedItemMoves(repo: Repo, s: State, i: nat)
    requires i < |s.tasks| && s.tasks[i].phase.Waiting? && Covered(repo, s, s.tasks[i].digest)
    requires TaskOk(repo, s, s.tasks[i])
    requires s.tasks[i].phase.todo != [] && s.tasks[i].phase.todo[0].Fixed? && StepWaiting(s, i) != s
    ensures GoodMove(repo, s, StepWaiting(s, i), i)
  {
    hide TaskOk, Covered;
    var s', t := StepWaiting(s, i), s.tasks[i];
    NextItemStaysCovered(repo, s, s', i);
    FixedItemTaskOk(repo, s, s', t, s'.tasks[i]);
  }

  lemma FixedItemTaskOk(repo: Repo, s: State, s': State, t: Task, t': Task)
    requires TaskOk(repo, s, t) && t.phase.Waiting? && t.phase.todo != [] && t.phase.todo[0].Fixed?
    requires s'.processed == s.processed
    requires t' == t.(phase := Waiting(t.phase.obj, t.phase.todo[1..], t.phase.results + [t.phase.todo[0].result]))
    ensures TaskOk(repo, s', t')
  {
    hide Of, OfAll, Reports;
    assert t.phase.todo[0] in Items(t.phase.obj);
    AppendNothing(t.phase.results, t.phase.todo[0].result);
    NextItemTaskOk(repo, s, s', t, t');
  }

  lemma CallItemMoves(repo: Repo, s: State, i: nat)
    requires i < |s.tasks| && s.tasks[i].phase.Waiting? && Covered(repo, s, s.tasks[i].digest)
    requires TaskOk(repo, s, s.tasks[i])
    requires s.tasks[i].phase.todo != [] && s.tasks[i].phase.todo[0].Call? && StepWaiting(s, i) != s
    ensures GoodMove(repo, s, StepWaiting(s, i), i)
  {
    var s', t := StepWaiting(s, i), s.tasks[i];
    var item := t.phase.todo[0];
    assert item in Items(t.phase.obj);
    assert Edge(repo.objects, t.digest, item.digest);
    NextItemTaskOk(repo, s, s', t, s'.tasks[i]);
    NextItemStaysCovered(repo, s, s', i);
  }

  lemma NextItemTaskOk(repo: Repo, s: State, s': State, t: Task, t': Task)
    requires TaskOk(repo, s, t) && t.phase.Waiting? && t.phase.todo != [] && s'.processed == s.processed
    requires t'.phase.Waiting? && t'.phase.obj == t.phase.obj && t'.phase.todo == t.phase.todo[1..]
    requires OfAll(t'.phase.results) == OfAll(t.phase.results) && t'.owned == t.owned && t'.digest == t.digest
    ensures TaskOk(repo, s', t')
  {
  }

  lemma NextItemStaysCovered(repo: Repo, s: State, s': State, i: nat)
    requires i < |s.tasks| && s.tasks[i].phase.Waiting? && s.tasks[i].phase.todo != []
    requires StepWaiting(s, i) == s' != s && Covered(repo, s, s.tasks[i].digest)
    ensures Moves(s, s', i) && Covered(repo, s', s.tasks[i].digest)
  {
    if ChildrenCovered(s, i) {
      NextItemCovered(s, s', i);
      assert WorksOn(s', i, s.tasks[i].digest);
    } else {
      SameDigestCovered(repo, s, s', i, s.tasks[i].digest);
    }
  }

  lemma OfResult(obj: Object, results: seq<CheckResult>)
    requires !obj.Blob?
    ensures Of(ResultFor(obj, results)) == Add(OfAll(results), NOTHING.(checkedObjects := 1))
  {
    hide OfAll, Add;
  }

  lemma LastTaskOk(repo: Repo, s: State, t: Task)
    requires t.phase.Waiting? && TaskOk(repo, s, t)
    ensures Reports(repo, Of(ResultFor(t.phase.obj, t.phase.results)), t.owned)
  {
    hide Reports, Of, OfAll, Add, ResultFor;
    ReportsWith(repo, OfAll(t.phase.results), t.owned - {t.digest}, t.digest);
    assert t.owned - {t.digest} + {t.digest} == t.owned;
    OfResult(t.phase.obj, t.phase.results);
  }

  lemma LastResultCovered(repo: Repo, s: State, i: nat)
    requires i < |s.tasks| && s.tasks[i].phase.Waiting? && Covered(repo, s, s.tasks[i].digest)
    requires forall k :: 0 <= k < |s.tasks| ==> TaskOk(repo, s, s.tasks[k])
    requires s.tasks[i].phase.todo == [] && StepWaiting(s, i) != s
    ensures Covered(repo, StepWaiting(s, i), s.tasks[i].digest)
  {
    var s', t := StepWaiting(s, i), s.tasks[i];
    assert TaskOk(repo, s, t);
    hide Reports, OfAll, Of, Items, ResultFor;
    if ChildrenCovered(s, i) {
      FinishedCallsProcessed(repo, s, i);
      assert ChildrenProcessed(repo, s', t.digest);
    } else {
      SameDigestCovered(repo, s, s', i, t.digest);
    }
  }

  lemma LastResultMoves(repo: Repo, s: State, i: nat)
    requires i < |s.tasks| && s.tasks[i].phase.Waiting? && Covered(repo, s, s.tasks[i].digest)
    requires forall k :: 0 <= k < |s.tasks| ==> TaskOk(repo, s, s.tasks[k])
    requires s.tasks[i].phase.todo == [] && StepWaiting(s, i) != s
    ensures GoodMove(repo, s, StepWaiting(s, i), i)
  {
    var t := s.tasks[i];
    var result := ResultFor(t.phase.obj, t.phase.results);
    assert TaskOk(repo, s, t);
    assert StepWaiting(s, i) == SetTask(s, i, Done(result), t.owned) && t.digest in s.processed;
    LastTaskOk(repo, s, t);
    LastResultCovered(repo, s, i);
    hide *;
    ResultMoves(repo, s, i, result);
  }

  lemma ResultMoves(repo: Repo, s: State, i: nat, result: CheckResult)
    requires i < |s.tasks| && s.tasks[i].digest in s.processed && Reports(repo, Of(result), s.tasks[i].owned)
    requires Covered(repo, SetTask(s, i, Done(result), s.tasks[i].owned), s.tasks[i].digest)
    ensures GoodMove(repo, s, SetTask(s, i, Done(result), s.tasks[i].owned), i)
  {
    hide Reports, Of, Covered;
  }

  lemma WaitingKeepsInv(repo: Repo, roots: seq<Digest>, s: State, i: nat)
    requires Inv(repo, roots, s) && i < |s.tasks| && s.tasks[i].phase.Waiting?
    ensures Inv(repo, roots, StepWaiting(s, i))
  {
    if StepWaiting(s, i) != s {
      assert TaskOk(repo, s, s.tasks[i]);
      if s.tasks[i].phase.todo == [] {
        LastResultMoves(repo, s, i);
      } else if s.tasks[i].phase.todo[0].Fixed? {
        FixedItemMoves(repo, s, i);
      } else {
        CallItemMoves(repo, s, i);
      }
      InvAfterMove(repo, roots, s, StepWaiting(s, i), i);
    }
  }

  // ----- Handing over a result -----

  /** Task `i` gives its result, and what it owns, to task `p`. */
  ghost predicate HandsOver(s: State, s': State, i: nat, p: nat) {
    && i < |s.tasks| == |s'.tasks| && p < |s.tasks| && i != p
    && s'.processed == s.processed
    && (forall j :: 0 <= j < |s.tasks| && j != i && j != p ==> s'.tasks[j] == s.tasks[j])
    && s'.tasks[i] == s.tasks[i].(phase := Delivered, owned := {})
    && s'.tasks[p] == s.tasks[p].(phase := s'.tasks[p].phase, owned := s.tasks[p].owned + s.tasks[i].owned)
  }

  lemma OwnershipHandedOver(s: State, s': State, i: nat, p: nat)
    requires Ownership(s) && HandsOver(s, s', i, p)
    ensures Ownership(s')
  {
  }

  lemma CoveredAfterHandOver(repo: Repo, s: State, s': State, i: nat, p: nat, d: Digest)
    requires HandsOver(s, s', i, p) && Covered(repo, s, d) && s.tasks[i].phase.Done?
    requires s.tasks[p].phase.Waiting?
    requires s'.tasks[p].phase.Failed? || (s'.tasks[p].phase.Waiting? && s'.tasks[p].phase.obj == s.tasks[p].phase.obj
                                           && s'.tasks[p].phase.todo == s.tasks[p].phase.todo)
    ensures Covered(repo, s', d)
  {
    if !ChildrenProcessed(repo, s, d) {
      var j :| 0 <= j < |s.tasks| && WorksOn(s, j, d);
      if s.tasks[j].phase.Waiting? {
        forall c | CalledBy(s, j, c)
          ensures CalledBy(s', j, c)
        {
          var k :| 0 <= k < |s.tasks| && s.tasks[k].parent == Some(j) && s.tasks[k].digest == c;
          assert s'.tasks[k].parent == Some(j) && s'.tasks[k].digest == c;
        }
      }
      assert WorksOn(s', j, d);
    }
  }

  lemma ReportsGiven(repo: Repo, a: Summary, owned: set<Digest>, d: Digest, b: Summary, given: set<Digest>)
    requires Reports(repo, a, owned - {d}) && Reports(repo, b, given) && d in owned && given !! owned
    ensures Reports(repo, Add(a, b), owned + given - {d})
  {
    ReportsAdd(repo, a, owned - {d}, b, given);
    assert owned + given - {d} == (owned - {d}) + given;
  }

  /** The receiver reports on what it held and on what it was given. */
  lemma ReceiverOk(repo: Repo, s: State, s': State, i: nat, p: nat)
    requires HandsOver(s, s', i, p) && TaskOk(repo, s, s.tasks[i]) && TaskOk(repo, s, s.tasks[p])
    requires s.tasks[i].owned !! s.tasks[p].owned && s'.tasks[p].phase.Waiting?
    requires s.tasks[i].phase.Done? && s.tasks[p].phase.Waiting? && s' == StepDone(s, i)
    ensures TaskOk(repo, s', s'.tasks[p])
  {
    hide Of, OfAll, Reports;
    var t, q := s.tasks[i], s.tasks[p];
    var r := if t.annotation then AsAnnotation(t.phase.result).value else t.phase.result;
    assert Reports(repo, Of(r), t.owned) by {
      if t.annotation {
        AnnotationReports(repo, t.phase.result, t.owned);
      }
    }
    AppendResult(q.phase.results, r);
    ReportsGiven(repo, OfAll(q.phase.results), q.owned, q.digest, Of(r), t.owned);
  }

  lemma DoneHandsOver(s: State, i: nat)
    requires i < |s.tasks| && s.tasks[i].phase.Done? && StepDone(s, i) != s
    ensures s.tasks[i].parent.Some? && s.tasks[i].parent.value < |s.tasks|
    ensures var s', p := StepDone(s, i), s.tasks[i].parent.value;
            && HandsOver(s, s', i, p) && s.tasks[p].phase.Waiting?
            && (s'.tasks[p].phase.Failed? ||
                (s'.tasks[p].phase.Waiting? && s'.tasks[p].phase.obj == s.tasks[p].phase.obj
                 && s'.tasks[p].phase.todo == s.tasks[p].phase.todo))
  {
  }

  lemma TasksOkHandedOver(repo: Repo, s: State, i: nat, j: nat)
    requires i < |s.tasks| && s.tasks[i].phase.Done? && StepDone(s, i) != s && j < |s.tasks| && Ownership(s)
    requires forall k :: 0 <= k < |s.tasks| ==> TaskOk(repo, s, s.tasks[k])
    ensures TaskOk(repo, StepDone(s, i), StepDone(s, i).tasks[j])
  {
    DoneHandsOver(s, i);
    var s', p := StepDone(s, i), s.tasks[i].parent.value;
    assert TaskOk(repo, s, s.tasks[j]) && TaskOk(repo, s, s.tasks[i]);
    if j == p && s'.tasks[p].phase.Waiting? {
      assert s.tasks[i].owned !! s.tasks[p].owned;
      ReceiverOk(repo, s, s', i, p);
    }
  }

  lemma DoneKeepsInv(repo: Repo, roots: seq<Digest>, s: State, i: nat)
    requires Inv(repo, roots, s) && i < |s.tasks| && s.tasks[i].phase.Done?
    ensures Inv(repo, roots, StepDone(s, i))
  {
    var s' := StepDone(s, i);
    if s' != s {
      DoneHandsOver(s, i);
      var p := s.tasks[i].parent.value;
      OwnershipHandedOver(s, s', i, p);
      forall j | 0 <= j < |s'.tasks|
        ensures TaskOk(repo, s', s'.tasks[j])
      {
        TasksOkHandedOver(repo, s, i, j);
      }
      forall d | d in s'.processed
        ensures Covered(repo, s', d)
      {
        CoveredAfterHandOver(repo, s, s', i, p, d);
      }
      ShapeHandedOver(repo, roots, s, s', i, p);
    }
  }

  lemma ShapeHandedOver(repo: Repo, roots: seq<Digest>, s: State, s': State, i: nat, p: nat)
    requires Shape(repo, roots, s) && HandsOver(s, s', i, p)
    ensures Shape(repo, roots, s')
  {
    forall j | 0 <= j < |s'.tasks|
      ensures s'.tasks[j].digest == s.tasks[j].digest && s'.tasks[j].parent == s.tasks[j].parent
    {
    }
  }

  lemma FailKeepsInv(repo: Repo, roots: seq<Digest>, s: State, i: nat)
    requires Inv(repo, roots, s) && i < |s.tasks| && s.tasks[i].phase.Loading?
    ensures Inv(repo, roots, SetTask(s, i, Failed, s.tasks[i].owned))
  {
    var s' := SetTask(s, i, Failed, s.tasks[i].owned);
    assert WorksOn(s', i, s.tasks[i].digest);
    InvAfterMove(repo, roots, s, s', i);
  }

  lemma StepKeepsInv(repo: Repo, lim: Limits, roots: seq<Digest>, s: State, i: nat, ok: bool)
    requires Inv(repo, roots, s) && BlobsAddressed(repo)
    ensures Inv(repo, roots, Step(repo, lim, s, i, ok))
  {
    hide Inv, Open;
    if i < |s.tasks| {
      match s.tasks[i].phase
      case Start =>
        if Admitted(lim, s.tasks, i) {
          StartKeepsInv(repo, roots, s, i);
        }
      case Loading =>
        if Open(s.tasks) < lim.permits {
          if ok {
            LoadingKeepsInv(repo, roots, s, i);
          } else {
            FailKeepsInv(repo, roots, s, i);
          }
        }
      case Waiting(_, _, _) => WaitingKeepsInv(repo, roots, s, i);
      case Done(_) => DoneKeepsInv(repo, roots, s, i);
      case Delivered =>
      case Failed =>
    }
  }

  lemma {:induction false} ExecKeepsInv(repo: Repo, lim: Limits, roots: seq<Digest>, s: State,
                                        schedule: seq<(nat, bool)>)
    requires Inv(repo, roots, s) && BlobsAddressed(repo)
    ensures Inv(repo, roots, Exec(repo, lim, s, schedule))
    decreases |schedule|
  {
    if schedule != [] {
      hide Inv, Step;
      StepKeepsInv(repo, lim, roots, s, schedule[0].0, schedule[0].1);
      ExecKeepsInv(repo, lim, roots, Step(repo, lim, s, schedule[0].0, schedule[0].1), schedule[1..]);
    }
  }

  // ----- What the checker reports -----

  /** Every root has its result, and every other call has handed its result over. */
  predicate Finished(roots: seq<Digest>, s: State) {
    |roots| <= |s.tasks| &&
    forall i :: 0 <= i < |s.tasks| ==> if i < |roots| then s.tasks[i].phase.Done? else s.tasks[i].phase.Delivered?
  }

  function Results(s: State, n: nat): seq<CheckResult>
    requires n <= |s.tasks| && forall i :: 0 <= i < n ==> s.tasks[i].phase.Done?
  {
    seq(n, i requires 0 <= i < n => s.tasks[i].phase.result)
  }

  function OwnedByFirst(s: State, n: nat): set<Digest>
    requires n <= |s.tasks|
  {
    set i, d | 0 <= i < n && d in s.tasks[i].owned :: d
  }

  lemma ResultsSplit(s: State, n: nat)
    requires 0 < n <= |s.tasks| && forall i :: 0 <= i < n ==> s.tasks[i].phase.Done?
    ensures Results(s, n) == Results(s, n - 1) + [s.tasks[n - 1].phase.result]
  {
  }

  lemma OwnedSplit(s: State, n: nat)
    requires 0 < n <= |s.tasks| && Ownership(s)
    ensures OwnedByFirst(s, n) == OwnedByFirst(s, n - 1) + s.tasks[n - 1].owned
    ensures OwnedByFirst(s, n - 1) !! s.tasks[n - 1].owned
  {
  }

  lemma {:induction false} RootsReport(repo: Repo, s: State, n: nat)
    requires n <= |s.tasks| && Ownership(s) && forall i :: 0 <= i < n ==> s.tasks[i].phase.Done?
    requires forall i :: 0 <= i < n ==> TaskOk(repo, s, s.tasks[i])
    ensures Reports(repo, OfAll(Results(s, n)), OwnedByFirst(s, n))
  {
    if n == 0 {
      NothingReports(repo, OwnedByFirst(s, 0));
    } else {
      assert TaskOk(repo, s, s.tasks[n - 1]);
      hide *;
      RootsReport(repo, s, n - 1);
      NextRootReports(repo, s, n);
    }
  }

  lemma NextRootReports(repo: Repo, s: State, n: nat)
    requires 0 < n <= |s.tasks| && Ownership(s) && forall i :: 0 <= i < n ==> s.tasks[i].phase.Done?
    requires TaskOk(repo, s, s.tasks[n - 1]) && Reports(repo, OfAll(Results(s, n - 1)), OwnedByFirst(s, n - 1))
    ensures Reports(repo, OfAll(Results(s, n)), OwnedByFirst(s, n))
  {
    var result, owned := s.tasks[n - 1].phase.result, s.tasks[n - 1].owned;
    assert Reports(repo, Of(result), owned);
    hide *;
    ResultsSplit(s, n);
    AppendResult(Results(s, n - 1), result);
    OwnedSplit(s, n);
    ReportsAdd(repo, OfAll(Results(s, n - 1)), OwnedByFirst(s, n - 1), Of(result), owned);
  }

  lemma NothingReports(repo: Repo, digests: set<Digest>)
    requires digests == {}
    ensures Reports(repo, NOTHING, digests)
  {
  }

  lemma FinishedRoot(repo: Repo, roots: seq<Digest>, s: State, i: nat)
    requires Inv(repo, roots, s) && Finished(roots, s) && i < |roots|
    ensures roots[i] in s.processed.Keys
  {
  }

  lemma FinishedChild(repo: Repo, roots: seq<Digest>, s: State, p: Digest, c: Digest)
    requires Inv(repo, roots, s) && Finished(roots, s) && p in s.processed.Keys && Edge(repo.objects, p, c)
    ensures c in s.processed.Keys
  {
    hide Of, OfAll, Reports, ChildrenCovered, TaskOk, Ownership, Shape, Reachable;
    assert Covered(repo, s, p);
  }

  lemma FinishedCovers(repo: Repo, roots: seq<Digest>, s: State)
    requires Inv(repo, roots, s) && Finished(roots, s)
    ensures Covers(repo.objects, RootSet(roots), s.processed.Keys)
  {
    hide Inv, Finished, Edge;
    forall i | 0 <= i < |roots|
      ensures roots[i] in s.processed.Keys
    {
      FinishedRoot(repo, roots, s, i);
    }
    forall p, c | p in s.processed.Keys && Edge(repo.objects, p, c)
      ensures c in s.processed.Keys
    {
      FinishedChild(repo, roots, s, p, c);
    }
  }

  /** When everything has finished, only the roots own anything. */
  lemma FinishedOwned(repo: Repo, roots: seq<Digest>, s: State, d: Digest)
    requires Inv(repo, roots, s) && Finished(roots, s)
    ensures d in s.processed <==> d in OwnedByFirst(s, |roots|)
  {
    hide Of, OfAll, Reports, Coverage, Reachable;
    if d in s.processed {
      var i :| 0 <= i < |s.tasks| && d in s.tasks[i].owned;
      assert TaskOk(repo, s, s.tasks[i]);
      assert i < |roots|;
    }
  }

  /** When everything has finished, exactly the digests reachable from the roots were processed. */
  lemma FinishedProcessedReachable(repo: Repo, roots: seq<Digest>, s: State, d: Digest)
    requires Inv(repo, roots, s) && Finished(roots, s)
    ensures d in s.processed <==> Reachable(repo.objects, RootSet(roots), d)
  {
    hide TaskOk, Coverage, Covers, Reachable;
    if Reachable(repo.objects, RootSet(roots), d) {
      FinishedCovers(repo, roots, s);
      CoverHoldsReachable(repo.objects, RootSet(roots), s.processed.Keys, d);
    }
  }

  lemma InitInv(repo: Repo, roots: seq<Digest>)
    ensures Inv(repo, roots, Init(roots))
  {
    forall i | 0 <= i < |roots|
      ensures Reachable(repo.objects, RootSet(roots), roots[i])
    {
      RootReachable(repo.objects, RootSet(roots), roots[i]);
    }
  }

  ghost predicate ReportsReachable(repo: Repo, roots: seq<Digest>, s: State)
    requires Finished(roots, s)
  {
    var total, reached := OfAll(Results(s, |roots|)), s.processed.Keys;
    && (forall d :: d in reached <==> Reachable(repo.objects, RootSet(roots), d))
    && total.missingObjects == AbsentObjects(repo, reached)
    && total.missingPayloads == AbsentPayloads(repo, reached)
    && total.checkedPayloads + |total.missingPayloads| == |PresentBlobs(repo, reached)|
    && |PresentObjects(repo, reached)| <= total.checkedObjects <= |reached|
    && (total.missingObjects == {} ==> total.checkedObjects == |reached|)
  }

  lemma FinishedReports(repo: Repo, roots: seq<Digest>, s: State)
    requires Inv(repo, roots, s) && Finished(roots, s)
    ensures ReportsReachable(repo, roots, s)
  {
    hide Inv, Reachable, OfAll, Of, Reports, AbsentObjects, AbsentPayloads, PresentBlobs, PresentObjects, RootSet;
    TotalReports(repo, roots, s);
    ReportsCount(repo, OfAll(Results(s, |roots|)), s.processed.Keys);
    forall d
      ensures d in s.processed.Keys <==> Reachable(repo.objects, RootSet(roots), d)
    {
      FinishedProcessedReachable(repo, roots, s, d);
    }
  }

  lemma ReportsCount(repo: Repo, total: Summary, digests: set<Digest>)
    requires Reports(repo, total, digests)
    ensures total.missingObjects == AbsentObjects(repo, digests)
    ensures total.missingPayloads == AbsentPayloads(repo, digests)
    ensures total.checkedPayloads + |total.missingPayloads| == |PresentBlobs(repo, digests)|
    ensures |PresentObjects(repo, digests)| <= total.checkedObjects <= |digests|
    ensures total.missingObjects == {} ==> total.checkedObjects == |digests|
  {
    PayloadsSplit(repo, digests);
    if total.missingObjects == {} {
      assert forall d :: d in digests ==> d !in AbsentObjects(repo, digests);
      assert PresentObjects(repo, digests) == digests;
    }
  }

  lemma TotalReports(repo: Repo, roots: seq<Digest>, s: State)
    requires Inv(repo, roots, s) && Finished(roots, s)
    ensures Reports(repo, OfAll(Results(s, |roots|)), s.processed.Keys)
  {
    hide Of, OfAll, Reports, Coverage, Shape, Ownership, TaskOk, OwnedByFirst;
    RootsReport(repo, s, |roots|);
    forall d
      ensures d in s.processed.Keys <==> d in OwnedByFirst(s, |roots|)
    {
      FinishedOwned(repo, roots, s, d);
    }
    assert OwnedByFirst(s, |roots|) == s.processed.Keys;
  }

  /**
    Under every interleaving, when a fresh checker has finished without an error, the combined
    summary of its results lists as missing exactly the absent objects, and the absent payloads
    of present blobs, that the roots reach; and its payload count and its missing payloads
    together number the distinct present blobs reached.
   */
  lemma CheckReportsExactly(repo: Repo, lim: Limits, roots: seq<Digest>, schedule: seq<(nat, bool)>)
    requires BlobsAddressed(repo) && Finished(roots, Exec(repo, lim, Init(roots), schedule))
    ensures var s := Exec(repo, lim, Init(roots), schedule);
            var total, reached := OfAll(Results(s, |roots|)), s.processed.Keys;
            && (forall d :: d in reached <==> Reachable(repo.objects, RootSet(roots), d))
            && total.missingObjects == (set d | d in reached && d !in repo.objects)
            && total.missingPayloads ==
               (set d | d in reached && d in repo.objects && repo.objects[d].Blob? && d !in repo.payloads)
            && total.checkedPayloads ==
               |set d | d in reached && d in repo.objects && repo.objects[d].Blob? && d in repo.payloads|
            && |set d | d in reached && d in repo.objects| <= total.checkedObjects <= |reached|
            && (total.missingObjects == {} ==> total.checkedObjects == |reached|)
  {
    hide *;
    var s := Exec(repo, lim, Init(roots), schedule);
    InitInv(repo, roots);
    ExecKeepsInv(repo, lim, roots, Init(roots), schedule);
    FinishedReports(repo, roots, s);
    ReportMeans(repo, roots, s);
  }

  lemma ReportMeans(repo: Repo, roots: seq<Digest>, s: State)
    requires Finished(roots, s) && ReportsReachable(repo, roots, s)
    ensures var total, reached := OfAll(Results(s, |roots|)), s.processed.Keys;
            && (forall d :: d in reached <==> Reachable(repo.objects, RootSet(roots), d))
            && total.missingObjects == (set d | d in reached && d !in repo.objects)
            && total.missingPayloads ==
               (set d | d in reached && d in repo.objects && repo.objects[d].Blob? && d !in repo.payloads)
            && total.checkedPayloads ==
               |set d | d in reached && d in repo.objects && repo.objects[d].Blob? && d in repo.payloads|
            && |set d | d in reached && d in repo.objects| <= total.checkedObjects <= |reached|
            && (total.missingObjects == {} ==> total.checkedObjects == |reached|)
  {
    hide OfAll, Of, Results, Reachable, RootSet;
    var reached := s.processed.Keys;
    PayloadsSplit(repo, reached);
    assert PresentObjects(repo, reached) == set d | d in reached && d in repo.objects;
    assert PresentPayloads(repo, reached) ==
           set d | d in reached && d in repo.objects && repo.objects[d].Blob? && d in repo.payloads;
    assert AbsentPayloads(repo, reached) ==
           set d | d in reached && d in repo.objects && repo.objects[d].Blob? && d !in repo.payloads;
  }

  lemma PayloadsSplit(repo: Repo, digests: set<Digest>)
    ensures |PresentPayloads(repo, digests)| + |AbsentPayloads(repo, digests)| == |PresentBlobs(repo, digests)|
  {
    assert PresentBlobs(repo, digests) == PresentPayloads(repo, digests) + AbsentPayloads(repo, digests);
  }
}
