/**
  The concurrent sync of `crates/spfs/src/sync.rs` as a machine of interleaved tasks.

  Every future that a syncer creates is a task. A schedule picks, step by step, which task
  moves next and whether its operation succeeds; a task moves from one await point to the
  next. Whatever holds after every schedule holds for every run of the syncer.
 */
module SyncProtocol {
  import opened Graph

  datatype Policy = MissingDataOnly | LatestTags | LatestTagsAndResyncObjects | ResyncEverything {
    predicate CheckExistingTags() { MissingDataOnly? }
    predicate CheckExistingObjects() { MissingDataOnly? || LatestTags? }
    predicate CheckExistingPayloads() { !ResyncEverything? }
  }

  /**
    What does not change during a sync: the source, the policy, where it all started, and how many
    manifests and payloads may be copied at a time.
   */
  datatype Setup = Setup(src: Repo, initial: Repo, policy: Policy, content: Objects, manifestPermits: nat,
                         payloadPermits: nat) {
    ghost predicate Valid() {
      && ContentAddressed(content)
      && Within(src.objects, content)
      && Within(initial.objects, content)
    }

    /** The object behind a digest; a digest that stands for nothing is never asked for. */
    function ObjectOf(d: Digest): Object {
      if d in content then content[d] else Blob(d)
    }
  }

  datatype Call =
    | DigestCall(digest: Digest)    // sync_digest, sync_annotation
    | ResolvedCall(digest: Digest)  // sync_partial_digest, once resolved
    | ManifestCall(digest: Digest)  // the manifest of a layer, read from the source only
    | EntryCall(digest: Digest)     // a blob entry of a manifest
    | TagCall(tag: string)          // sync_tag

  datatype Phase =
    | Start
    | Read(d: Digest)                                      // not seen yet, about to load the object
    | Begin(d: Digest)                                     // object in hand, entering sync_<kind>
    | Claimed(d: Digest)                                   // this task put the digest in `processed`
    | Waiting(d: Digest, todo: seq<Call>, made: set<nat>)  // calls still to make, calls made
    | PayloadNext(d: Digest)
    | Copying(d: Digest)                                   // holds a payload permit
    | BlobNext(d: Digest)
    | MarkNext(d: Digest)
    | TagWaiting(tag: string, target: Digest, child: nat)
    | Returned
    | Failed

  datatype Task = Task(call: Call, phase: Phase)

  datatype State = State(dest: Repo, processed: set<Digest>, tasks: seq<Task>)

  /** What the environment does to the operation of a step. */
  datatype Outcome = Proceeds | Fails | DeliversOther(payload: Digest)

  /** One call per reference, in the order in which the references are listed. */
  function Calls(obj: Object): (calls: seq<Call>)
    ensures forall k :: k in calls ==> !k.TagCall? && k.digest in ChildObjects(obj)
    ensures forall c :: c in ChildObjects(obj) ==> exists k :: k in calls && !k.TagCall? && k.digest == c
    ensures forall k :: k in calls ==> (k.EntryCall? <==> obj.Manifest?)
    ensures forall k :: k in calls && k.ManifestCall? ==> obj.Layer? && obj.manifest == Some(k.digest)
  {
    match obj
    case Platform(stack) => DigestCalls(stack)
    case Layer(manifest, annotations) => LayerCalls(manifest, AnnotationBlobs(annotations))
    case Manifest(entries) => EntryCalls(EntryBlobs(entries))
    case Blob(_) => []
  }

  function LayerCalls(manifest: Option<Digest>, blobs: seq<Digest>): (calls: seq<Call>)
    ensures forall k :: k in calls ==>
              (k.DigestCall? && k.digest in blobs) || (k.ManifestCall? && manifest == Some(k.digest))
    ensures forall d :: d in blobs ==> DigestCall(d) in calls
    ensures manifest.Some? ==> ManifestCall(manifest.value) in calls
  {
    (if manifest.Some? then [ManifestCall(manifest.value)] else []) + DigestCalls(blobs)
  }

  function EntryCalls(blobs: seq<Digest>): (calls: seq<Call>)
    ensures forall k :: k in calls ==> k.EntryCall? && k.digest in blobs
    ensures forall d :: d in blobs ==> EntryCall(d) in calls
  {
    if blobs == [] then [] else [EntryCall(blobs[0])] + EntryCalls(blobs[1..])
  }

  function DigestCalls(digests: seq<Digest>): (calls: seq<Call>)
    ensures forall k :: k in calls ==> k.DigestCall? && k.digest in digests
    ensures forall d :: d in digests ==> DigestCall(d) in calls
  {
    if digests == [] then [] else [DigestCall(digests[0])] + DigestCalls(digests[1..])
  }

  function Init(su: Setup, items: seq<Call>): State {
    State(su.initial, {}, seq(|items|, i requires 0 <= i < |items| => Task(items[i], Start)))
  }

  function SetPhase(s: State, i: nat, phase: Phase): State
    requires i < |s.tasks|
  {
    s.(tasks := s.tasks[i := s.tasks[i].(phase := phase)])
  }

  function Spawn(s: State, call: Call): State {
    s.(tasks := s.tasks + [Task(call, Start)])
  }

  predicate AllReturned(s: State, ids: set<nat>) {
    forall id :: id in ids ==> id < |s.tasks| && s.tasks[id].phase.Returned?
  }

  function StepStart(su: Setup, s: State, i: nat): State
    requires i < |s.tasks|
  {
    match s.tasks[i].call
    case DigestCall(d) => SetPhase(s, i, if d in s.processed then Returned else Read(d))
    case ResolvedCall(d) => SetPhase(s, i, Read(d))
    case ManifestCall(d) =>
      SetPhase(s, i, if d in su.src.objects && su.src.objects[d].Manifest? then Begin(d) else Failed)
    case EntryCall(d) => SetPhase(s, i, Begin(d))
    case TagCall(tag) =>
      if su.policy.CheckExistingTags() && tag in s.dest.tags then SetPhase(s, i, Returned)
      else if tag in su.src.tags then
        var target := su.src.tags[tag];
        SetPhase(Spawn(s, DigestCall(target)), i, TagWaiting(tag, target, |s.tasks|))
      else SetPhase(s, i, Failed)
  }

  function StepRead(su: Setup, s: State, i: nat, d: Digest): State
    requires i < |s.tasks|
  {
    var found := d in su.src.objects || (su.policy.CheckExistingObjects() && d in s.dest.objects);
    SetPhase(s, i, if found then Begin(d) else Failed)
  }

  function StepBegin(su: Setup, s: State, i: nat, d: Digest): State
    requires i < |s.tasks|
  {
    if d in s.processed then SetPhase(s, i, Returned)
    else if !su.ObjectOf(d).Blob? then SetPhase(s, i, Claimed(d)).(processed := s.processed + {d})
    else if su.policy.CheckExistingObjects() && d in s.dest.objects && d in s.dest.payloads then
      SetPhase(s, i, Returned).(processed := s.processed + {d})
    else SetPhase(s, i, PayloadNext(d))
  }

  /** The task holds a manifest permit from before its entries are synced until it returns. */
  predicate HoldsManifest(su: Setup, t: Task) {
    t.phase.Waiting? && su.ObjectOf(t.phase.d).Manifest?
  }

  function ManifestsHeld(su: Setup, tasks: seq<Task>): nat {
    if tasks == [] then 0
    else ManifestsHeld(su, tasks[..|tasks| - 1]) + (if HoldsManifest(su, tasks[|tasks| - 1]) then 1 else 0)
  }

  function PayloadsHeld(tasks: seq<Task>): nat {
    if tasks == [] then 0
    else PayloadsHeld(tasks[..|tasks| - 1]) + (if tasks[|tasks| - 1].phase.Copying? then 1 else 0)
  }

  /** A manifest waits here for a permit. */
  function StepClaimed(su: Setup, s: State, i: nat, d: Digest): State
    requires i < |s.tasks|
  {
    if su.policy.CheckExistingObjects() && d in s.dest.objects then SetPhase(s, i, Returned)
    else if su.ObjectOf(d).Manifest? && ManifestsHeld(su, s.tasks) >= su.manifestPermits then s
    else SetPhase(s, i, Waiting(d, Calls(su.ObjectOf(d)), {}))
  }

  /** Platforms and manifests start all their calls at once, a layer makes one call at a time. */
  function StepWaiting(su: Setup, s: State, i: nat, d: Digest, todo: seq<Call>, made: set<nat>): State
    requires i < |s.tasks|
  {
    if todo != [] then
      if su.ObjectOf(d).Layer? && !AllReturned(s, made) then s
      else SetPhase(Spawn(s, todo[0]), i, Waiting(d, todo[1..], made + {|s.tasks|}))
    else if AllReturned(s, made) then
      SetPhase(s, i, Returned).(dest := s.dest.(objects := s.dest.objects[d := su.ObjectOf(d)]))
    else s
  }

  /** A payload that has to be copied waits here for a permit. */
  function StepPayload(su: Setup, s: State, i: nat, d: Digest): State
    requires i < |s.tasks|
  {
    if d in s.processed || (su.policy.CheckExistingPayloads() && d in s.dest.payloads) then
      SetPhase(s, i, BlobNext(d))
    else if PayloadsHeld(s.tasks) >= su.payloadPermits then s
    else SetPhase(s, i, Copying(d))
  }

  function StepCopying(su: Setup, s: State, i: nat, d: Digest, outcome: Outcome): State
    requires i < |s.tasks|
  {
    if d !in su.src.payloads then SetPhase(s, i, Failed)
    else if outcome.DeliversOther? && outcome.payload != d then
      SetPhase(s, i, Failed).(dest := s.dest.(payloads := s.dest.payloads + {outcome.payload}))
    else SetPhase(s, i, BlobNext(d)).(dest := s.dest.(payloads := s.dest.payloads + {d}))
  }

  function StepTag(s: State, i: nat, tag: string, target: Digest, child: nat): State
    requires i < |s.tasks|
  {
    if child < |s.tasks| && s.tasks[child].phase.Returned? then
      SetPhase(s, i, Returned).(dest := s.dest.(tags := s.dest.tags[tag := target]))
    else s
  }

  /** One step of task `i`; a task that is over, or not there, does nothing. */
  function Step(su: Setup, s: State, i: nat, outcome: Outcome): State
  {
    if i >= |s.tasks| then s
    else
      var phase := s.tasks[i].phase;
      if phase.Returned? || phase.Failed? then s
      else if outcome.Fails? then SetPhase(s, i, Failed)
      else
        match phase
        case Start => StepStart(su, s, i)
        case Read(d) => StepRead(su, s, i, d)
        case Begin(d) => StepBegin(su, s, i, d)
        case Claimed(d) => StepClaimed(su, s, i, d)
        case Waiting(d, todo, made) => StepWaiting(su, s, i, d, todo, made)
        case PayloadNext(d) => StepPayload(su, s, i, d)
        case Copying(d) => StepCopying(su, s, i, d, outcome)
        case BlobNext(d) =>
          SetPhase(s, i, MarkNext(d)).(dest := s.dest.(objects := s.dest.objects[d := su.ObjectOf(d)]))
        case MarkNext(d) => SetPhase(s, i, Returned).(processed := s.processed + {d})
        case TagWaiting(tag, target, child) => StepTag(s, i, tag, target, child)
  }

  // ----- The invariant -----

  predicate HasDigest(t: Task, d: Digest) {
    !t.call.TagCall? && t.call.digest == d
  }

  predicate InRange(su: Setup, d: Digest, blob: bool) {
    d in su.content && su.content[d].Blob? == blob
  }

  /** Every child is still to be called, or has been called by one of the tasks made. */
  predicate CallsCover(s: State, children: seq<Digest>, todo: seq<Call>, made: set<nat>) {
    forall c :: c in children ==>
      || (exists k :: k in todo && !k.TagCall? && k.digest == c)
      || (exists id :: id in made && id < |s.tasks| && HasDigest(s.tasks[id], c))
  }

  predicate TaskOk(su: Setup, s: State, t: Task) {
    && (t.call.EntryCall? ==> t.call.digest in su.content && su.content[t.call.digest].Blob?)
    && match t.phase
       case Start => true
       case Read(d) => HasDigest(t, d)
       case Begin(d) => HasDigest(t, d) && d in su.content
       case Claimed(d) => HasDigest(t, d) && InRange(su, d, false) && d in s.processed
       case Waiting(d, todo, made) =>
         && HasDigest(t, d) && InRange(su, d, false) && d in s.processed
         && (forall k :: k in todo ==> k in Calls(su.content[d]))
         && CallsCover(s, ChildObjects(su.content[d]), todo, made)
       case PayloadNext(d) => HasDigest(t, d) && InRange(su, d, true)
       case Copying(d) => HasDigest(t, d) && InRange(su, d, true)
       case BlobNext(d) => HasDigest(t, d) && InRange(su, d, true) && d in s.dest.payloads
       case MarkNext(d) =>
         HasDigest(t, d) && InRange(su, d, true) && d in s.dest.payloads && d in s.dest.objects
       case TagWaiting(tag, target, child) =>
         && t.call == TagCall(tag) && tag in su.src.tags && su.src.tags[tag] == target
         && child < |s.tasks| && HasDigest(s.tasks[child], target)
       case Returned =>
         if t.call.TagCall? then TagSettled(su, s, t.call.tag) else t.call.digest in s.processed
       case Failed => true
  }

  predicate TagSettled(su: Setup, s: State, tag: string) {
    || (su.policy.CheckExistingTags() && tag in s.dest.tags)
    || (tag in su.src.tags && tag in s.dest.tags && s.dest.tags[tag] == su.src.tags[tag]
        && su.src.tags[tag] in s.processed)
  }

  predicate ChildrenProcessed(su: Setup, s: State, d: Digest)
    requires d in su.content
  {
    forall c :: c in ChildObjects(su.content[d]) ==> c in s.processed
  }

  /** The digest is stored; under a resyncing policy its children have been processed too. */
  predicate Settled(su: Setup, s: State, d: Digest) {
    && d in s.dest.objects && d in su.content
    && (su.content[d].Blob? ==> d in s.dest.payloads)
    && (!su.policy.CheckExistingObjects() ==> ChildrenProcessed(su, s, d))
  }

  /** The task has put the digest in `processed` and has not stored it: it still runs, or it failed. */
  predicate Claims(su: Setup, t: Task, d: Digest) {
    HasDigest(t, d) && InRange(su, d, false) && (t.phase.Claimed? || t.phase.Waiting? || t.phase.Failed?)
  }

  predicate InFlight(su: Setup, s: State, d: Digest) {
    exists i :: 0 <= i < |s.tasks| && Claims(su, s.tasks[i], d)
  }

  predicate ObjectOk(su: Setup, s: State, d: Digest)
    requires d in s.dest.objects
  {
    && d in su.content && s.dest.objects[d] == su.content[d]
    && (d in su.initial.objects ||
        (ChildrenProcessed(su, s, d) && (su.content[d].Blob? ==> d in s.dest.payloads)))
  }

  ghost predicate Inv(su: Setup, s: State) {
    && (forall i :: 0 <= i < |s.tasks| ==> TaskOk(su, s, s.tasks[i]))
    && (forall d :: d in s.processed ==> Settled(su, s, d) || InFlight(su, s, d))
    && (forall d :: d in s.dest.objects ==> ObjectOk(su, s, d))
    && su.initial.objects.Keys <= s.dest.objects.Keys
    && su.initial.payloads <= s.dest.payloads
    && (forall t :: t in s.dest.tags ==>
          (t in su.initial.tags && s.dest.tags[t] == su.initial.tags[t]) || s.dest.tags[t] in s.processed)
  }

  /** Nothing is ever taken back: sets only grow and a task keeps its call. */
  predicate Grows(s: State, s': State) {
    && s.processed <= s'.processed
    && s.dest.objects.Keys <= s'.dest.objects.Keys
    && s.dest.payloads <= s'.dest.payloads
    && (forall t :: t in s.dest.tags ==> t in s'.dest.tags)
    && |s.tasks| <= |s'.tasks|
    && (forall i :: 0 <= i < |s.tasks| ==> s'.tasks[i].call == s.tasks[i].call)
  }

  lemma StepGrows(su: Setup, s: State, i: nat, outcome: Outcome)
    ensures Grows(s, Step(su, s, i, outcome))
  {
  }

  /** A step changes the phase of one task, and may start one more. */
  predicate OneMoves(s: State, s': State, i: nat) {
    && |s.tasks| <= |s'.tasks| <= |s.tasks| + 1
    && (forall j :: 0 <= j < |s.tasks| && j != i ==> s'.tasks[j] == s.tasks[j])
    && (|s'.tasks| > |s.tasks| ==> s'.tasks[|s.tasks|].phase == Start)
  }

  lemma StepMovesOne(su: Setup, s: State, i: nat, outcome: Outcome)
    ensures OneMoves(s, Step(su, s, i, outcome), i)
  {
    hide Calls, ManifestsHeld, PayloadsHeld;
  }

  /** Which tag entries a step may write: only the source's target for that tag. */
  predicate TagsFrom(su: Setup, s: State, s': State) {
    forall t :: t in s'.dest.tags ==>
      || (t in s.dest.tags && s'.dest.tags[t] == s.dest.tags[t])
      || (t in su.src.tags && s'.dest.tags[t] == su.src.tags[t] && su.src.tags[t] in s'.processed)
  }

  lemma TaskStaysOk(su: Setup, s: State, s': State, t: Task)
    requires TaskOk(su, s, t) && Grows(s, s') && TagsFrom(su, s, s')
    ensures TaskOk(su, s', t)
  {
  }

  /** What one step has to establish for the invariant to survive it. */
  lemma InvAfter(su: Setup, s: State, s': State, i: nat)
    requires Inv(su, s) && Grows(s, s') && TagsFrom(su, s, s') && i < |s.tasks|
    requires forall j :: 0 <= j < |s.tasks| && j != i ==> s'.tasks[j] == s.tasks[j]
    requires forall j :: |s.tasks| <= j < |s'.tasks| ==> TaskOk(su, s', s'.tasks[j])
    requires TaskOk(su, s', s'.tasks[i])
    requires forall d :: d in s'.processed - s.processed ==> Settled(su, s', d) || Claims(su, s'.tasks[i], d)
    requires forall d :: Claims(su, s.tasks[i], d) ==> Claims(su, s'.tasks[i], d) || Settled(su, s', d)
    requires forall d :: d in s'.dest.objects && d !in s.dest.objects ==> ObjectOk(su, s', d)
    requires forall d :: d in s.dest.objects ==> s'.dest.objects[d] == s.dest.objects[d]
    ensures Inv(su, s')
  {
    forall j | 0 <= j < |s'.tasks|
      ensures TaskOk(su, s', s'.tasks[j])
    {
      if j < |s.tasks| && j != i {
        TaskStaysOk(su, s, s', s.tasks[j]);
      }
    }
    forall d | d in s'.processed
      ensures Settled(su, s', d) || InFlight(su, s', d)
    {
      if d in s.processed && !Settled(su, s, d) {
        var j :| 0 <= j < |s.tasks| && Claims(su, s.tasks[j], d);
        assert Claims(su, s'.tasks[j], d) || Settled(su, s', d);
      }
    }
    forall d | d in s'.dest.objects
      ensures ObjectOk(su, s', d)
    {
      if d in s.dest.objects {
        assert ObjectOk(su, s, d);
      }
    }
  }

  /** The step of task `i` is about to be taken, and it succeeds. */
  ghost predicate Ready(su: Setup, s: State, i: nat) {
    su.Valid() && Inv(su, s) && i < |s.tasks|
  }

  /** The step writes nothing; it moves the task and perhaps starts one more. */
  predicate Quiet(s: State, s': State, i: nat)
    requires i < |s.tasks|
  {
    && s'.dest == s.dest && s'.processed == s.processed
    && |s.tasks| <= |s'.tasks| <= |s.tasks| + 1
    && s'.tasks[i].call == s.tasks[i].call
    && (forall j :: 0 <= j < |s.tasks| && j != i ==> s'.tasks[j] == s.tasks[j])
  }

  lemma QuietKeepsInv(su: Setup, s: State, s': State, i: nat)
    requires Ready(su, s, i) && Quiet(s, s', i)
    requires TaskOk(su, s', s'.tasks[i])
    requires |s'.tasks| > |s.tasks| ==> TaskOk(su, s', s'.tasks[|s.tasks|])
    requires s.tasks[i].phase.Claimed? || s.tasks[i].phase.Waiting? ==> s'.tasks[i].phase.Waiting?
    requires !s.tasks[i].phase.Failed?
    ensures Inv(su, s')
  {
    hide TaskOk, ObjectOk, Settled;
    InvAfter(su, s, s', i);
  }

  lemma StartKeepsInv(su: Setup, s: State, i: nat)
    requires Ready(su, s, i) && s.tasks[i].phase.Start?
    ensures Inv(su, StepStart(su, s, i))
  {
    assert TaskOk(su, s, s.tasks[i]);
    hide Inv;
    QuietKeepsInv(su, s, StepStart(su, s, i), i);
  }

  lemma ReadKeepsInv(su: Setup, s: State, i: nat, d: Digest)
    requires Ready(su, s, i) && s.tasks[i].phase == Read(d)
    ensures Inv(su, StepRead(su, s, i, d))
  {
    assert TaskOk(su, s, s.tasks[i]);
    assert d in s.dest.objects ==> ObjectOk(su, s, d);
    InvAfter(su, s, StepRead(su, s, i, d), i);
  }

  lemma BeginKeepsInv(su: Setup, s: State, i: nat, d: Digest)
    requires Ready(su, s, i) && s.tasks[i].phase == Begin(d)
    ensures Inv(su, StepBegin(su, s, i, d))
  {
    assert TaskOk(su, s, s.tasks[i]);
    InvAfter(su, s, StepBegin(su, s, i, d), i);
  }

  lemma ClaimedKeepsInv(su: Setup, s: State, i: nat, d: Digest)
    requires Ready(su, s, i) && s.tasks[i].phase == Claimed(d)
    ensures Inv(su, StepClaimed(su, s, i, d))
  {
    assert TaskOk(su, s, s.tasks[i]);
    var s' := StepClaimed(su, s, i, d);
    if s' != s {
      hide ManifestsHeld;
      InvAfter(su, s, s', i);
    }
  }

  lemma PayloadKeepsInv(su: Setup, s: State, i: nat, d: Digest)
    requires Ready(su, s, i) && s.tasks[i].phase == PayloadNext(d)
    ensures Inv(su, StepPayload(su, s, i, d))
  {
    assert TaskOk(su, s, s.tasks[i]);
    assert d in s.processed ==> Settled(su, s, d);
    hide Inv, CallsCover, PayloadsHeld;
    var s' := StepPayload(su, s, i, d);
    if s' != s {
      QuietKeepsInv(su, s, s', i);
    }
  }

  lemma CopyingKeepsInv(su: Setup, s: State, i: nat, d: Digest, outcome: Outcome)
    requires Ready(su, s, i) && s.tasks[i].phase == Copying(d)
    ensures Inv(su, StepCopying(su, s, i, d, outcome))
  {
    assert TaskOk(su, s, s.tasks[i]);
    hide Inv, ObjectOk, InFlight, Calls, CallsCover;
    InvAfter(su, s, StepCopying(su, s, i, d, outcome), i);
  }

  lemma StepKeepsInv(su: Setup, s: State, i: nat, outcome: Outcome)
    requires su.Valid() && Inv(su, s)
    ensures Inv(su, Step(su, s, i, outcome))
  {
    if i < |s.tasks| && !s.tasks[i].phase.Returned? && !s.tasks[i].phase.Failed? {
      var s' := Step(su, s, i, outcome);
      var t := s.tasks[i];
      StepGrows(su, s, i, outcome);
      assert TaskOk(su, s, t);
      if outcome.Fails? {
        InvAfter(su, s, s', i);
      } else {
        match t.phase
        case Start => StartKeepsInv(su, s, i);
        case Read(d) => ReadKeepsInv(su, s, i, d);
        case Begin(d) => BeginKeepsInv(su, s, i, d);
        case Claimed(d) => ClaimedKeepsInv(su, s, i, d);
        case Waiting(d, todo, made) => WaitingKeepsInv(su, s, i, d, todo, made);
        case PayloadNext(d) => PayloadKeepsInv(su, s, i, d);
        case Copying(d) => CopyingKeepsInv(su, s, i, d, outcome);
        case BlobNext(d) => BlobKeepsInv(su, s, i, d);
        case MarkNext(d) => MarkKeepsInv(su, s, i, d);
        case TagWaiting(tag, target, child) => TagKeepsInv(su, s, i, tag, target, child);
      }
    }
  }

  lemma WaitingKeepsInv(su: Setup, s: State, i: nat, d: Digest, todo: seq<Call>, made: set<nat>)
    requires Ready(su, s, i) && s.tasks[i].phase == Waiting(d, todo, made)
    ensures Inv(su, StepWaiting(su, s, i, d, todo, made))
  {
    if todo != [] {
      SpawnKeepsInv(su, s, i, d, todo, made);
    } else {
      StoreKeepsInv(su, s, i, d, made);
    }
  }

  lemma SpawnKeepsInv(su: Setup, s: State, i: nat, d: Digest, todo: seq<Call>, made: set<nat>)
    requires Ready(su, s, i) && s.tasks[i].phase == Waiting(d, todo, made) && todo != []
    ensures Inv(su, StepWaiting(su, s, i, d, todo, made))
  {
    var s' := StepWaiting(su, s, i, d, todo, made);
    assert TaskOk(su, s, s.tasks[i]);
    if s' != s {
      SpawnedOk(su, s, s', i, d, todo, made);
      hide Inv, TaskOk, Calls;
      QuietKeepsInv(su, s, s', i);
    }
  }

  lemma SpawnedOk(su: Setup, s: State, s': State, i: nat, d: Digest, todo: seq<Call>, made: set<nat>)
    requires su.Valid() && i < |s.tasks| && s.tasks[i].phase == Waiting(d, todo, made) && todo != []
    requires TaskOk(su, s, s.tasks[i])
    requires s' == SetPhase(Spawn(s, todo[0]), i, Waiting(d, todo[1..], made + {|s.tasks|}))
    ensures TaskOk(su, s', s'.tasks[i]) && TaskOk(su, s', s'.tasks[|s.tasks|])
  {
    assert todo[0] in Calls(su.content[d]);
    SpawnCovers(su, s, s', ChildObjects(su.content[d]), todo, made);
    hide CallsCover;
  }

  lemma StoreKeepsInv(su: Setup, s: State, i: nat, d: Digest, made: set<nat>)
    requires Ready(su, s, i) && s.tasks[i].phase == Waiting(d, [], made)
    ensures Inv(su, StepWaiting(su, s, i, d, [], made))
  {
    var s' := StepWaiting(su, s, i, d, [], made);
    assert TaskOk(su, s, s.tasks[i]);
    if s' != s {
      AllChildrenProcessed(su, s, d, made);
      assert d in s.dest.objects ==> ObjectOk(su, s, d);
      hide Inv, Calls, CallsCover;
      InvAfter(su, s, s', i);
    }
  }

  lemma AllChildrenProcessed(su: Setup, s: State, d: Digest, made: set<nat>)
    requires Inv(su, s) && d in su.content && AllReturned(s, made)
    requires CallsCover(s, ChildObjects(su.content[d]), [], made)
    ensures ChildrenProcessed(su, s, d)
  {
  }

  lemma SpawnCovers(su: Setup, s: State, s': State, children: seq<Digest>, todo: seq<Call>, made: set<nat>)
    requires CallsCover(s, children, todo, made)
    requires todo != [] && Grows(s, s') && |s'.tasks| == |s.tasks| + 1 && s'.tasks[|s.tasks|].call == todo[0]
    ensures CallsCover(s', children, todo[1..], made + {|s.tasks|})
  {
  }

  lemma BlobKeepsInv(su: Setup, s: State, i: nat, d: Digest)
    requires Ready(su, s, i) && s.tasks[i].phase == BlobNext(d)
    ensures Inv(su, Step(su, s, i, Proceeds))
  {
    assert TaskOk(su, s, s.tasks[i]);
    assert d in s.dest.objects ==> ObjectOk(su, s, d);
    InvAfter(su, s, Step(su, s, i, Proceeds), i);
  }

  lemma MarkKeepsInv(su: Setup, s: State, i: nat, d: Digest)
    requires Ready(su, s, i) && s.tasks[i].phase == MarkNext(d)
    ensures Inv(su, Step(su, s, i, Proceeds))
  {
    assert TaskOk(su, s, s.tasks[i]);
    InvAfter(su, s, Step(su, s, i, Proceeds), i);
  }

  lemma TagKeepsInv(su: Setup, s: State, i: nat, tag: string, target: Digest, child: nat)
    requires Ready(su, s, i) && s.tasks[i].phase == TagWaiting(tag, target, child)
    ensures Inv(su, StepTag(s, i, tag, target, child))
  {
    assert TaskOk(su, s, s.tasks[i]);
    var s' := StepTag(s, i, tag, target, child);
    if s' != s {
      assert TaskOk(su, s, s.tasks[child]);
      InvAfter(su, s, s', i);
    }
  }

  // ----- Whole runs -----

  /** The state after a schedule: each element moves one task. */
  function Exec(su: Setup, s: State, schedule: seq<(nat, Outcome)>): State
    decreases |schedule|
  {
    if schedule == [] then s
    else Exec(su, Step(su, s, schedule[0].0, schedule[0].1), schedule[1..])
  }

  /** The calls that a sync of an environment makes, one per item. */
  predicate TopLevel(items: seq<Call>) {
    forall i :: 0 <= i < |items| ==> items[i].DigestCall? || items[i].ResolvedCall? || items[i].TagCall?
  }

  lemma {:induction false} ExecKeepsInv(su: Setup, s: State, schedule: seq<(nat, Outcome)>)
    requires su.Valid() && Inv(su, s)
    ensures Inv(su, Exec(su, s, schedule)) && Grows(s, Exec(su, s, schedule))
    decreases |schedule|
  {
    if schedule != [] {
      var s' := Step(su, s, schedule[0].0, schedule[0].1);
      StepKeepsInv(su, s, schedule[0].0, schedule[0].1);
      StepGrows(su, s, schedule[0].0, schedule[0].1);
      ExecKeepsInv(su, s', schedule[1..]);
    }
  }

  /** A digest is on its way when the task that claimed it has neither stored it nor returned. */
  predicate StoredOrOnItsWay(su: Setup, s: State, d: Digest) {
    || (d in s.dest.objects && d in su.content && (su.content[d].Blob? ==> d in s.dest.payloads))
    || (d in s.processed && InFlight(su, s, d))
  }

  /**
    Under every interleaving and every pattern of failures, each object and tag written to a
    closed destination refers only to what is stored or is claimed by a task that has not
    returned.
   */
  lemma WritesReferToStoredOrInFlight(su: Setup, items: seq<Call>, schedule: seq<(nat, Outcome)>)
    requires su.Valid() && TopLevel(items) && Closed(su.initial)
    ensures var s := Exec(su, Init(su, items), schedule);
            && (forall d, c :: Edge(s.dest.objects, d, c) ==> StoredOrOnItsWay(su, s, c))
            && (forall d :: d in s.dest.objects ==> Holds(s.dest, d))
            && (forall t :: t in s.dest.tags ==> StoredOrOnItsWay(su, s, s.dest.tags[t]))
  {
    var s := Exec(su, Init(su, items), schedule);
    ExecKeepsInv(su, Init(su, items), schedule);
    forall d | d in s.dest.objects
      ensures Holds(s.dest, d)
    {
      assert ObjectOk(su, s, d);
      assert d in su.initial.objects ==> Holds(su.initial, d);
    }
    forall d, c | Edge(s.dest.objects, d, c)
      ensures StoredOrOnItsWay(su, s, c)
    {
      assert ObjectOk(su, s, d);
      if d in su.initial.objects {
        assert Edge(su.initial.objects, d, c);
        assert Holds(s.dest, c) && ObjectOk(su, s, c);
      }
    }
    forall t | t in s.dest.tags
      ensures StoredOrOnItsWay(su, s, s.dest.tags[t])
    {
      var c := s.dest.tags[t];
      if c !in s.processed {
        assert Holds(s.dest, c) && ObjectOk(su, s, c);
      }
    }
  }

  predicate Succeeded(s: State) {
    forall i :: 0 <= i < |s.tasks| ==> s.tasks[i].phase.Returned?
  }

  /** The digests that the items ask for, a tag standing for its target in the source. */
  function Requested(su: Setup, items: seq<Call>): set<Digest> {
    (set i | 0 <= i < |items| && !items[i].TagCall? :: items[i].digest) +
    (set i | 0 <= i < |items| && items[i].TagCall? && items[i].tag in su.src.tags :: su.src.tags[items[i].tag])
  }

  /** The digests whose objects a successful sync must have copied or found. */
  function Demanded(su: Setup, items: seq<Call>): set<Digest> {
    if su.policy.CheckExistingTags() then set i | 0 <= i < |items| && !items[i].TagCall? :: items[i].digest
    else Requested(su, items)
  }

  lemma DemandedProcessed(su: Setup, items: seq<Call>, schedule: seq<(nat, Outcome)>)
    requires su.Valid() && TopLevel(items)
    requires Succeeded(Exec(su, Init(su, items), schedule))
    ensures var s := Exec(su, Init(su, items), schedule);
            && Inv(su, s)
            && Demanded(su, items) <= s.processed
            && (forall d :: d in s.processed ==> Settled(su, s, d))
            && (forall i :: 0 <= i < |items| && items[i].TagCall? ==> TagSettled(su, s, items[i].tag))
  {
    var s := Exec(su, Init(su, items), schedule);
    ExecKeepsInv(su, Init(su, items), schedule);
    forall i | 0 <= i < |items|
      ensures items[i].TagCall? ==> TagSettled(su, s, items[i].tag)
      ensures !items[i].TagCall? ==> items[i].digest in s.processed
    {
      assert Init(su, items).tasks[i].call == items[i];
      assert TaskOk(su, s, s.tasks[i]);
    }
  }

  /**
    When every task has returned, a destination that started closed is closed again and holds
    everything reachable from the digests asked for.
   */
  lemma SuccessClosesDestination(su: Setup, items: seq<Call>, schedule: seq<(nat, Outcome)>)
    requires su.Valid() && TopLevel(items) && Closed(su.initial)
    requires Succeeded(Exec(su, Init(su, items), schedule))
    ensures var s := Exec(su, Init(su, items), schedule);
            && Closed(s.dest)
            && (forall d :: Reachable(su.content, Demanded(su, items), d) ==> Holds(s.dest, d))
            && (forall i :: 0 <= i < |items| && items[i].TagCall? ==> items[i].tag in s.dest.tags)
  {
    var s := Exec(su, Init(su, items), schedule);
    WritesReferToStoredOrInFlight(su, items, schedule);
    DemandedProcessed(su, items, schedule);
    forall d | d in s.dest.objects
      ensures d in su.content && s.dest.objects[d] == su.content[d]
    {
      assert ObjectOk(su, s, d);
    }
    forall d | Reachable(su.content, Demanded(su, items), d)
      ensures Holds(s.dest, d)
    {
      ClosedHoldsReachable(s.dest, su.content, Demanded(su, items), d);
    }
  }

  /**
    A policy that does not trust existing objects repairs: whatever the destination held, and
    however incomplete it was, a successful sync leaves it everything reachable from the request.
   */
  lemma ResyncRepairsDestination(su: Setup, items: seq<Call>, schedule: seq<(nat, Outcome)>)
    requires su.Valid() && TopLevel(items)
    requires su.policy.LatestTagsAndResyncObjects? || su.policy.ResyncEverything?
    requires Succeeded(Exec(su, Init(su, items), schedule))
    ensures var s := Exec(su, Init(su, items), schedule);
            && (forall d :: Reachable(su.content, Requested(su, items), d) ==> Holds(s.dest, d))
            && (forall i :: 0 <= i < |items| && items[i].TagCall? ==>
                  items[i].tag in su.src.tags && items[i].tag in s.dest.tags
                  && s.dest.tags[items[i].tag] == su.src.tags[items[i].tag])
  {
    var s := Exec(su, Init(su, items), schedule);
    DemandedProcessed(su, items, schedule);
    forall d | Reachable(su.content, Requested(su, items), d)
      ensures Holds(s.dest, d)
    {
      assert Covers(su.content, Requested(su, items), s.processed) by {
        forall p, c | p in s.processed && Edge(su.content, p, c)
          ensures c in s.processed
        {
          assert Settled(su, s, p);
        }
      }
      CoverHoldsReachable(su.content, Requested(su, items), s.processed, d);
      assert Settled(su, s, d) && ObjectOk(su, s, d);
    }
  }
}
