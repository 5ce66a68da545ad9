/**
  What a runtime shows: the manifests that `resolve_overlay_dirs` in `crates/spfs/src/resolve.rs`
  returns are rendered to directories, stacked by overlayfs, and covered by the masks of the
  runtime's manifest (`mask_files` in `crates/spfs/src/env.rs`).

  A render leaves masks out, so a mask hides nothing until the covering on top; that covering
  comes from the manifests of the original layers, flattened or not.
 */
module Mount {
  import opened Graph
  import opened Flatten
  import opened Overlay

  type Path = seq<string>

  // ----- Rendering and stacking -----

  /** A manifest as a directory on disk: no masks, and nothing below a file. */
  function Rendered(e: Entry): Entry {
    if e.kind.Tree? then
      Entry(Tree, e.mode, map n | n in e.entries && !e.entries[n].kind.Mask? :: Rendered(e.entries[n]))
    else Entry(e.kind, e.mode, map[])
  }

  /** Two directories of an overlay mount: directories merge, otherwise the upper one hides the lower. */
  function Stacked(lower: Entry, upper: Entry): Entry {
    if lower.kind.Tree? && upper.kind.Tree? then
      Entry(Tree, upper.mode,
            map n | n in lower.entries.Keys + upper.entries.Keys ::
              if n !in upper.entries then lower.entries[n]
              else if n !in lower.entries then upper.entries[n]
              else Stacked(lower.entries[n], upper.entries[n]))
    else upper
  }

  /** The lower directories of the mount, on top of the runtime's own empty one. */
  function Mounted(ms: seq<Entry>): Entry {
    if ms == [] then EMPTY else Stacked(Mounted(ms[..|ms| - 1]), Rendered(ms[|ms| - 1]))
  }

  predicate HasMask(e: Entry) {
    e.kind.Mask? || (e.kind.Tree? && exists n :: n in e.entries && HasMask(e.entries[n]))
  }

  /**
    The upper directory with the masks of a manifest: a whiteout for each mask, and the
    directories that lead to one.
   */
  function Covered(view: Entry, manifest: Entry): Entry
    decreases manifest
  {
    if !view.kind.Tree? || !manifest.kind.Tree? then view
    else
      Entry(Tree, view.mode,
            map n | n in view.entries.Keys + manifest.entries.Keys &&
                    (if n in manifest.entries then
                       !manifest.entries[n].kind.Mask? && (n in view.entries || HasMask(manifest.entries[n]))
                     else true) ::
              if n in manifest.entries && HasMask(manifest.entries[n]) then
                Covered((if n in view.entries && view.entries[n].kind.Tree? then view.entries[n] else EMPTY)
                          .(mode := manifest.entries[n].mode),
                        manifest.entries[n])
              else view.entries[n])
  }

  /** What a runtime shows that mounts `ms`, its own manifest being `manifest`. */
  function Shown(ms: seq<Entry>, manifest: Entry): Entry {
    Covered(Mounted(ms), manifest)
  }

  // ----- What is at a path -----

  datatype Node = Node(kind: Kind, mode: nat)

  /** What a tree has to say about a path. */
  datatype Word =
    | Gives(node: Node)  // something is there
    | Hides              // there is a file in the way
    | Masks              // the path, or a directory on the way, is masked
    | Silent             // the path leads out of the tree

  function Says(e: Entry, p: Path): Word
    decreases |p|
  {
    if e.kind.Mask? then Masks
    else if p == [] then Gives(Node(e.kind, e.mode))
    else if !e.kind.Tree? then Hides
    else if p[0] !in e.entries then Silent
    else Says(e.entries[p[0]], p[1..])
  }

  function Shows(e: Entry, p: Path): Option<Node> {
    if Says(e, p).Gives? then Some(Says(e, p).node) else None
  }

  /** No mask anywhere, and nothing below a file. */
  predicate Plain(e: Entry) {
    && !e.kind.Mask? && (!e.kind.Tree? ==> e.entries == map[])
    && forall n :: n in e.entries ==> Plain(e.entries[n])
  }

  /** What a tree says about a path is what its entry on the way says. */
  lemma OneStep(e: Entry, n: string, p: Path)
    ensures !e.kind.Mask? ==>
              Says(e, [n] + p) ==
              if !e.kind.Tree? then Hides else if n !in e.entries then Silent else Says(e.entries[n], p)
    ensures Plain(e) && n in e.entries ==> e.kind.Tree? && Plain(e.entries[n]) && Says(e.entries[n], []).Gives?
  {
    assert ([n] + p)[1..] == p;
  }

  /** Plain trees that show the same at every path are the same. */
  lemma {:induction false} SameAtEveryPath(a: Entry, b: Entry)
    requires Plain(a) && Plain(b) && forall p :: Shows(a, p) == Shows(b, p)
    ensures a == b
  {
    assert Shows(a, []) == Shows(b, []);
    forall n | n in a.entries || n in b.entries
      ensures n in a.entries && n in b.entries && a.entries[n] == b.entries[n]
    {
      OneStep(a, n, []);
      OneStep(b, n, []);
      assert Shows(a, [n]) == Shows(b, [n]) && [n] + [] == [n];
      forall p
        ensures Shows(a.entries[n], p) == Shows(b.entries[n], p)
      {
        OneStep(a, n, p);
        OneStep(b, n, p);
        assert Shows(a, [n] + p) == Shows(b, [n] + p);
      }
      SameAtEveryPath(a.entries[n], b.entries[n]);
    }
    assert a.entries == b.entries;
  }

  lemma {:induction false} RenderedIsPlain(e: Entry)
    requires !e.kind.Mask?
    ensures Plain(Rendered(e))
  {
    if e.kind.Tree? {
      forall n | n in e.entries && !e.entries[n].kind.Mask?
        ensures Plain(Rendered(e.entries[n]))
      {
        RenderedIsPlain(e.entries[n]);
      }
    }
  }

  lemma {:induction false} RenderedShows(e: Entry, p: Path)
    requires !e.kind.Mask?
    ensures Shows(Rendered(e), p) == Shows(e, p)
    decreases |p|
  {
    if p != [] {
      assert p == [p[0]] + p[1..];
      OneStep(e, p[0], p[1..]);
      OneStep(Rendered(e), p[0], p[1..]);
    }
    if p != [] && e.kind.Tree? && p[0] in e.entries && !e.entries[p[0]].kind.Mask? {
      RenderedShows(e.entries[p[0]], p[1..]);
    }
  }

  lemma {:induction false} StackedIsPlain(a: Entry, b: Entry)
    requires Plain(a) && Plain(b)
    ensures Plain(Stacked(a, b))
  {
    if a.kind.Tree? && b.kind.Tree? {
      forall n | n in a.entries && n in b.entries
        ensures Plain(Stacked(a.entries[n], b.entries[n]))
      {
        StackedIsPlain(a.entries[n], b.entries[n]);
      }
    }
  }

  /** The upper layer decides about the paths that it gives or hides; masks decide nothing. */
  lemma {:induction false} StackedShows(a: Entry, b: Entry, p: Path)
    requires Plain(a) && !b.kind.Mask?
    ensures Shows(Stacked(a, Rendered(b)), p) ==
            if Says(b, p).Gives? then Some(Says(b, p).node) else if Says(b, p).Hides? then None else Shows(a, p)
    decreases |p|
  {
    RenderedShows(b, p);
    if p != [] && a.kind.Tree? && b.kind.Tree? && p[0] in a.entries && p[0] in b.entries
      && !b.entries[p[0]].kind.Mask? {
      StackedShows(a.entries[p[0]], b.entries[p[0]], p[1..]);
    }
  }

  // ----- What a stack shows, path by path -----

  /** The last layer to give the path or to have a file in its way decides. */
  function StackShows(ms: seq<Entry>, p: Path): Option<Node> {
    if ms == [] then Shows(EMPTY, p)
    else
      match Says(ms[|ms| - 1], p)
      case Gives(node) => Some(node)
      case Hides => None
      case _ => StackShows(ms[..|ms| - 1], p)
  }

  lemma {:induction false} MountedIsPlain(ms: seq<Entry>)
    requires AreManifests(ms)
    ensures Plain(Mounted(ms)) && Mounted(ms).kind.Tree?
  {
    if ms != [] {
      MountedIsPlain(ms[..|ms| - 1]);
      RenderedIsPlain(ms[|ms| - 1]);
      StackedIsPlain(Mounted(ms[..|ms| - 1]), Rendered(ms[|ms| - 1]));
    }
  }

  lemma {:induction false} MountedShows(ms: seq<Entry>, p: Path)
    requires AreManifests(ms)
    ensures Shows(Mounted(ms), p) == StackShows(ms, p)
  {
    if ms != [] {
      MountedShows(ms[..|ms| - 1], p);
      MountedIsPlain(ms[..|ms| - 1]);
      StackedShows(Mounted(ms[..|ms| - 1]), ms[|ms| - 1], p);
    }
  }

  /** The path is a directory on the way to a mask. */
  predicate Leads(e: Entry, p: Path)
    decreases |p|
  {
    e.kind.Tree? && if p == [] then HasMask(e) else p[0] in e.entries && Leads(e.entries[p[0]], p[1..])
  }

  lemma {:induction false} NothingMasked(e: Entry, p: Path)
    requires !HasMask(e)
    ensures !Says(e, p).Masks? && !Leads(e, p)
    decreases |p|
  {
    if p != [] && e.kind.Tree? && p[0] in e.entries {
      NothingMasked(e.entries[p[0]], p[1..]);
    }
  }

  function ModeAt(e: Entry, p: Path): nat
    decreases |p|
  {
    if p == [] || p[0] !in e.entries then e.mode else ModeAt(e.entries[p[0]], p[1..])
  }

  lemma CoveredStep(view: Entry, manifest: Entry, n: string)
    requires view.kind.Tree? && manifest.kind.Tree?
    ensures var c := Covered(view, manifest);
            && c.kind.Tree? && c.mode == view.mode
            && (n !in manifest.entries || !HasMask(manifest.entries[n]) ==>
                  (n in c.entries <==> n in view.entries) && (n in c.entries ==> c.entries[n] == view.entries[n]))
            && (n in manifest.entries && manifest.entries[n].kind.Mask? ==> n !in c.entries)
  {
  }

  /** Between the root and a mask there is a directory, whatever the view had there. */
  function Opened(view: Entry, n: string, mode: nat): Entry {
    (if n in view.entries && view.entries[n].kind.Tree? then view.entries[n] else EMPTY).(mode := mode)
  }

  lemma CoveredLeads(view: Entry, manifest: Entry, n: string)
    requires view.kind.Tree? && manifest.kind.Tree?
    requires n in manifest.entries && HasMask(manifest.entries[n]) && !manifest.entries[n].kind.Mask?
    ensures var c := Covered(view, manifest);
            n in c.entries && c.entries[n] == Covered(Opened(view, n, manifest.entries[n].mode), manifest.entries[n])
  {
  }

  /** Masked paths are gone, directories on the way to a mask are there, and the rest is as before. */
  lemma {:induction false} CoveredShows(view: Entry, manifest: Entry, p: Path)
    requires Plain(view) && view.kind.Tree? && manifest.kind.Tree?
    ensures Shows(Covered(view, manifest), p) ==
            if Says(manifest, p).Masks? then None
            else if p != [] && Leads(manifest, p) then Some(Node(Tree, ModeAt(manifest, p)))
            else Shows(view, p)
    decreases |p|
  {
    if p != [] {
      var n, rest := p[0], p[1..];
      assert p == [n] + rest;
      OneStep(view, n, rest);
      OneStep(manifest, n, rest);
      OneStep(Covered(view, manifest), n, rest);
      CoveredStep(view, manifest, n);
      if n in manifest.entries {
        var below := manifest.entries[n];
        if !HasMask(below) {
          NothingMasked(below, rest);
        } else if !below.kind.Mask? {
          CoveredLeads(view, manifest, n);
          var dir := Opened(view, n, below.mode);
          CoveredShows(dir, below, rest);
          if rest != [] {
            OpenedShows(view, n, below.mode, rest);
          }
        }
      }
    }
  }

  lemma OpenedShows(view: Entry, n: string, mode: nat, p: Path)
    requires Plain(view) && view.kind.Tree? && p != []
    ensures Plain(Opened(view, n, mode)) && Shows(Opened(view, n, mode), p) == Shows(view, [n] + p)
  {
    OneStep(view, n, p);
    assert p == [p[0]] + p[1..];
    OneStep(Opened(view, n, mode), p[0], p[1..]);
    if n in view.entries {
      OneStep(view.entries[n], p[0], p[1..]);
    }
  }

  lemma {:induction false} CoveredIsPlain(view: Entry, manifest: Entry)
    requires Plain(view) && view.kind.Tree? && manifest.kind.Tree?
    ensures Plain(Covered(view, manifest))
    decreases manifest
  {
    var c := Covered(view, manifest);
    forall n | n in c.entries
      ensures Plain(c.entries[n])
    {
      CoveredStep(view, manifest, n);
      if n in manifest.entries && HasMask(manifest.entries[n]) {
        var below := manifest.entries[n];
        CoveredLeads(view, manifest, n);
        CoveredIsPlain(Opened(view, n, below.mode), below);
      }
    }
  }

  // ----- What a merge shows, path by path -----

  /** Updating by one layer after the other, as for the manifest of an environment. */
  function Merge(ms: seq<Entry>): Entry {
    if ms == [] then EMPTY else Update(Merge(ms[..|ms| - 1]), ms[|ms| - 1])
  }

  lemma {:induction false} MergeIsFold(ms: seq<Entry>)
    ensures Fold(Update, EMPTY, ms) == Merge(ms)
  {
    if ms != [] {
      var init, last := ms[..|ms| - 1], ms[|ms| - 1];
      assert ms == init + [last];
      FoldConcat(Update, EMPTY, init, [last]);
      FoldOne(Update, Merge(init), last);
      MergeIsFold(init);
    }
  }

  /** What is recorded at a path, be it visible or left over below a file. */
  function Recorded(e: Entry, p: Path): Option<Node>
    decreases |p|
  {
    if p == [] then if e.kind.Mask? then None else Some(Node(e.kind, e.mode))
    else if p[0] in e.entries then Recorded(e.entries[p[0]], p[1..])
    else None
  }

  lemma {:induction false} RecordedIsShown(e: Entry, p: Path)
    requires NoLeftovers(e)
    ensures Recorded(e, p) == Shows(e, p)
    decreases |p|
  {
    if p != [] && p[0] in e.entries {
      RecordedIsShown(e.entries[p[0]], p[1..]);
    }
  }

  /** An update records what the layer gives and forgets what it masks; a file in the way forgets nothing. */
  lemma {:induction false} UpdateRecords(a: Entry, b: Entry, p: Path)
    requires NoLeftovers(b) && !b.kind.Mask?
    ensures Recorded(Update(a, b), p) ==
            if Says(b, p).Gives? then Some(Says(b, p).node) else if Says(b, p).Masks? then None else Recorded(a, p)
    decreases |p|
  {
    if p != [] && b.kind.Tree? && p[0] in b.entries {
      var n, rest := p[0], p[1..];
      RecordedIsShown(b.entries[n], rest);
      if n in a.entries && !b.entries[n].kind.Mask? {
        UpdateRecords(a.entries[n], b.entries[n], rest);
      }
    }
  }

  /** The last layer to give or to mask the path decides. */
  function MergeRecords(ms: seq<Entry>, p: Path): Option<Node> {
    if ms == [] then Recorded(EMPTY, p)
    else
      match Says(ms[|ms| - 1], p)
      case Gives(node) => Some(node)
      case Masks => None
      case _ => MergeRecords(ms[..|ms| - 1], p)
  }

  lemma {:induction false} MergeRecorded(ms: seq<Entry>, p: Path)
    requires AreManifests(ms)
    ensures Recorded(Merge(ms), p) == MergeRecords(ms, p)
  {
    if ms != [] {
      MergeRecorded(ms[..|ms| - 1], p);
      UpdateRecords(Merge(ms[..|ms| - 1]), ms[|ms| - 1], p);
    }
  }

  function Parent(p: Path): Path
    requires p != []
  {
    p[..|p| - 1]
  }

  predicate IsDir(node: Option<Node>) { node.Some? && node.value.kind.Tree? }

  /** What is recorded can be seen if all that leads to it are directories. */
  lemma {:induction false} ShownIfRecorded(e: Entry, p: Path)
    requires p != []
    ensures Shows(e, p) == if IsDir(Shows(e, Parent(p))) then Recorded(e, p) else None
    decreases |p|
  {
    var n, rest := p[0], p[1..];
    assert p == [n] + rest;
    OneStep(e, n, rest);
    if rest == [] {
      assert Parent(p) == [];
    } else {
      assert Parent(p) == [n] + Parent(rest);
      OneStep(e, n, Parent(rest));
      if n in e.entries {
        ShownIfRecorded(e.entries[n], rest);
      }
    }
  }

  function MergeShows(ms: seq<Entry>, p: Path): Option<Node>
    decreases |p|
  {
    if p == [] then MergeRecords(ms, [])
    else if IsDir(MergeShows(ms, Parent(p))) then MergeRecords(ms, p)
    else None
  }

  lemma {:induction false} MergeShown(ms: seq<Entry>, p: Path)
    requires AreManifests(ms)
    ensures Shows(Merge(ms), p) == MergeShows(ms, p)
    decreases |p|
  {
    MergeRecorded(ms, p);
    if p == [] {
      MergeIsDirectory(ms);
    } else {
      MergeShown(ms, Parent(p));
      ShownIfRecorded(Merge(ms), p);
    }
  }

  lemma {:induction false} MergeIsDirectory(ms: seq<Entry>)
    requires AreManifests(ms)
    ensures Merge(ms).kind.Tree? && Merge(ms).mode == OPEN_DIR_MODE
  {
    if ms != [] {
      MergeIsDirectory(ms[..|ms| - 1]);
    }
  }

  // ----- Where the two differ -----

  /** The last layer to give the path. */
  function LastGiver(ms: seq<Entry>, p: Path): (i: Option<nat>)
    ensures i.Some? ==> i.value < |ms| && Says(ms[i.value], p).Gives?
    ensures forall j :: 0 <= j < |ms| && Says(ms[j], p).Gives? ==> i.Some? && j <= i.value
  {
    if ms == [] then None
    else if Says(ms[|ms| - 1], p).Gives? then Some(|ms| - 1)
    else LastGiver(ms[..|ms| - 1], p)
  }

  predicate HiddenAfter(ms: seq<Entry>, p: Path, i: nat) {
    exists j :: i < j < |ms| && Says(ms[j], p).Hides?
  }

  predicate MaskedAfter(ms: seq<Entry>, p: Path, i: nat) {
    exists j :: i < j < |ms| && Says(ms[j], p).Masks?
  }

  /**
    Given by a layer, then masked, itself or a directory on its way, and neither given again nor
    in the way of a file: the stack still has it, the merge has not.
   */
  predicate Retained(ms: seq<Entry>, p: Path) {
    var i := LastGiver(ms, p);
    p != [] && i.Some? && !HiddenAfter(ms, p, i.value) && MaskedAfter(ms, p, i.value)
  }

  /**
    Given by a layer, then in the way of a file, never given again nor masked, and its directory
    is one again in the end: the merge brings it back, the stack does not.
   */
  predicate Revealed(ms: seq<Entry>, p: Path) {
    var i := LastGiver(ms, p);
    && p != [] && i.Some? && HiddenAfter(ms, p, i.value) && !MaskedAfter(ms, p, i.value)
    && IsDir(MergeShows(ms, Parent(p)))
  }

  lemma AfterInit(ms: seq<Entry>, p: Path, i: nat)
    requires ms != [] && i < |ms| - 1
    ensures HiddenAfter(ms, p, i) <==> HiddenAfter(ms[..|ms| - 1], p, i) || Says(ms[|ms| - 1], p).Hides?
    ensures MaskedAfter(ms, p, i) <==> MaskedAfter(ms[..|ms| - 1], p, i) || Says(ms[|ms| - 1], p).Masks?
  {
    var init := ms[..|ms| - 1];
    if HiddenAfter(init, p, i) {
      var j :| i < j < |init| && Says(init[j], p).Hides?;
      assert Says(ms[j], p).Hides?;
    }
    if MaskedAfter(init, p, i) {
      var j :| i < j < |init| && Says(init[j], p).Masks?;
      assert Says(ms[j], p).Masks?;
    }
  }

  lemma {:induction false} ShowsMeans(ms: seq<Entry>, p: Path)
    requires p != []
    ensures var i := LastGiver(ms, p);
            && StackShows(ms, p) ==
               (if i.Some? && !HiddenAfter(ms, p, i.value) then Some(Says(ms[i.value], p).node) else None)
            && MergeRecords(ms, p) ==
               (if i.Some? && !MaskedAfter(ms, p, i.value) then Some(Says(ms[i.value], p).node) else None)
  {
    if ms != [] {
      var init := ms[..|ms| - 1];
      ShowsMeans(init, p);
      var i := LastGiver(init, p);
      if i.Some? && !Says(ms[|ms| - 1], p).Gives? {
        AfterInit(ms, p, i.value);
      }
    }
  }

  /** What has something below it is a directory, in each layer and so in the stack. */
  lemma {:induction false} ParentGiven(e: Entry, p: Path)
    requires p != [] && !e.kind.Mask?
    ensures Says(e, p).Gives? ==> IsDir(Shows(e, Parent(p)))
    ensures Says(e, Parent(p)).Hides? ==> Says(e, p).Hides?
    ensures Says(e, Parent(p)).Masks? ==> Says(e, p).Masks?
    ensures Says(e, Parent(p)).Gives? && !IsDir(Shows(e, Parent(p))) ==> Says(e, p).Hides?
    decreases |p|
  {
    var n, rest := p[0], p[1..];
    assert p == [n] + rest;
    OneStep(e, n, rest);
    if rest == [] {
      assert Parent(p) == [];
    } else {
      assert Parent(p) == [n] + Parent(rest);
      OneStep(e, n, Parent(rest));
      if n in e.entries && !e.entries[n].kind.Mask? {
        ParentGiven(e.entries[n], rest);
      }
    }
  }

  lemma {:induction false} StackShowsParent(ms: seq<Entry>, p: Path)
    requires AreManifests(ms) && p != [] && StackShows(ms, p).Some?
    ensures IsDir(StackShows(ms, Parent(p)))
  {
    if ms != [] {
      ParentGiven(ms[|ms| - 1], p);
      if !Says(ms[|ms| - 1], p).Gives? {
        StackShowsParent(ms[..|ms| - 1], p);
      }
    }
  }

  lemma {:induction false} MergeRecordsParent(ms: seq<Entry>, p: Path)
    requires AreManifests(ms) && p != [] && MergeRecords(ms, p).Some?
    ensures MergeRecords(ms, Parent(p)).Some?
  {
    if ms != [] {
      ParentGiven(ms[|ms| - 1], p);
      if !Says(ms[|ms| - 1], p).Gives? {
        MergeRecordsParent(ms[..|ms| - 1], p);
      }
    }
  }

  /** What both have, they have alike. */
  lemma {:induction false} BothShow(ms: seq<Entry>, p: Path)
    requires AreManifests(ms) && StackShows(ms, p).Some? && MergeRecords(ms, p).Some?
    ensures MergeShows(ms, p) == StackShows(ms, p)
    decreases |p|
  {
    if p == [] {
      RootShows(ms);
    } else {
      ShowsMeans(ms, p);
      StackShowsParent(ms, p);
      MergeRecordsParent(ms, p);
      BothShow(ms, Parent(p));
    }
  }

  lemma {:induction false} RootShows(ms: seq<Entry>)
    requires AreManifests(ms)
    ensures StackShows(ms, []) == MergeShows(ms, []) == Some(Node(Tree, OPEN_DIR_MODE))
  {
    if ms != [] {
      assert Says(ms[|ms| - 1], []) == Gives(Node(Tree, OPEN_DIR_MODE));
    }
  }

  /** A stack and its merge differ exactly at the paths that are retained or revealed. */
  lemma DifferIff(ms: seq<Entry>, p: Path)
    requires AreManifests(ms)
    ensures StackShows(ms, p) != MergeShows(ms, p) <==> Retained(ms, p) || Revealed(ms, p)
  {
    if p == [] {
      RootShows(ms);
    } else {
      ShowsMeans(ms, p);
      if StackShows(ms, p).Some? && MergeRecords(ms, p).Some? {
        BothShow(ms, p);
      }
    }
  }

  // ----- When flattening cannot be seen -----

  predicate DecidedBy(tops: seq<Entry>, p: Path) {
    exists i :: 0 <= i < |tops| && (Says(tops[i], p).Gives? || Says(tops[i], p).Hides?)
  }

  lemma DecidedByInit(tops: seq<Entry>, p: Path)
    requires tops != []
    ensures var last := Says(tops[|tops| - 1], p);
            DecidedBy(tops, p) <==> DecidedBy(tops[..|tops| - 1], p) || last.Gives? || last.Hides?
  {
    var init := tops[..|tops| - 1];
    if DecidedBy(init, p) {
      var i :| 0 <= i < |init| && (Says(init[i], p).Gives? || Says(init[i], p).Hides?);
      assert tops[i] == init[i];
    }
  }

  /** What is below shows through exactly where the layers on top do not decide. */
  lemma {:induction false} OnTop(a: seq<Entry>, b: seq<Entry>, tops: seq<Entry>, p: Path)
    ensures if DecidedBy(tops, p) then StackShows(a + tops, p) == StackShows(b + tops, p)
            else StackShows(a + tops, p) == StackShows(a, p) && StackShows(b + tops, p) == StackShows(b, p)
    decreases |tops|
  {
    if tops == [] {
      assert a + tops == a && b + tops == b;
    } else {
      var init := tops[..|tops| - 1];
      assert (a + tops)[..|a + tops| - 1] == a + init;
      assert (b + tops)[..|b + tops| - 1] == b + init;
      DecidedByInit(tops, p);
      OnTop(a, b, init, p);
    }
  }

  lemma {:induction false} VisibleShows(e: Entry, p: Path)
    ensures Shows(Visible(e), p) == Shows(e, p)
    decreases |p|
  {
    if p != [] && e.kind.Tree? && p[0] in e.entries {
      VisibleShows(e.entries[p[0]], p[1..]);
    }
  }

  /** What is stored for a merge. */
  lemma StoredMerge(ms: seq<Entry>)
    requires AreManifests(ms)
    ensures IsManifest(Stored(Merge(ms))) && Stored(Merge(ms)) == Visible(Merge(ms))
    ensures forall p :: StackShows([Stored(Merge(ms))], p) == MergeShows(ms, p)
  {
    MergeIsDirectory(ms);
    StoredIsVisible(Merge(ms));
    VisibleIsWhole(Merge(ms));
    forall p
      ensures StackShows([Stored(Merge(ms))], p) == MergeShows(ms, p)
    {
      StoredShows(ms, p);
    }
  }

  lemma StoredShows(ms: seq<Entry>, p: Path)
    requires AreManifests(ms) && IsManifest(Stored(Merge(ms))) && Stored(Merge(ms)) == Visible(Merge(ms))
    ensures StackShows([Stored(Merge(ms))], p) == MergeShows(ms, p)
  {
    var stored := Stored(Merge(ms));
    VisibleShows(Merge(ms), p);
    MergeShown(ms, p);
    var none: seq<Entry> := [];
    assert [stored][..0] == none;
    if p != [] {
      assert Shows(EMPTY, p) == None;
    }
  }

  lemma ShownIsPlain(ms: seq<Entry>, manifest: Entry)
    requires AreManifests(ms) && manifest.kind.Tree?
    ensures Plain(Shown(ms, manifest))
  {
    MountedIsPlain(ms);
    CoveredIsPlain(Mounted(ms), manifest);
  }

  lemma ShownAt(ms: seq<Entry>, manifest: Entry, p: Path)
    requires AreManifests(ms) && manifest.kind.Tree?
    ensures Shows(Shown(ms, manifest), p) ==
            if Says(manifest, p).Masks? then None
            else if p != [] && Leads(manifest, p) then Some(Node(Tree, ModeAt(manifest, p)))
            else StackShows(ms, p)
  {
    MountedIsPlain(ms);
    MountedShows(ms, p);
    CoveredShows(Mounted(ms), manifest, p);
  }

  /** The masks of the runtime's manifest settle what is at the path. */
  predicate Settled(manifest: Entry, p: Path) {
    Says(manifest, p).Masks? || Leads(manifest, p)
  }

  /** Every path at which the group and its merge differ is settled by what is above. */
  ghost predicate Harmless(group: seq<Entry>, tops: seq<Entry>) {
    forall p :: Retained(group, p) || Revealed(group, p) ==>
      DecidedBy(tops, p) || Settled(Merge(group + tops), p)
  }

  lemma SameAt(group: seq<Entry>, tops: seq<Entry>, p: Path)
    requires AreManifests(group) && AreManifests(tops)
    ensures var manifest, flat := Merge(group + tops), [Stored(Merge(group))] + tops;
            && AreManifests(flat) && AreManifests(group + tops) && manifest.kind.Tree?
            && (Shows(Shown(flat, manifest), p) == Shows(Shown(group + tops, manifest), p) <==>
                  ((Retained(group, p) || Revealed(group, p)) ==> DecidedBy(tops, p) || Settled(manifest, p)))
  {
    var manifest, flat := Merge(group + tops), [Stored(Merge(group))] + tops;
    StoredMerge(group);
    MergeIsDirectory(group + tops);
    ShownAt(flat, manifest, p);
    ShownAt(group + tops, manifest, p);
    OnTop([Stored(Merge(group))], group, tops, p);
    DifferIff(group, p);
  }

  /**
    Mounting the stored merge of the bottom layers instead of the layers shows the same if and
    only if what is above settles every path that is retained or revealed.
   */
  lemma FlatteningShowsTheSameIff(group: seq<Entry>, tops: seq<Entry>)
    requires AreManifests(group) && AreManifests(tops)
    ensures var manifest := Merge(group + tops);
            Shown([Stored(Merge(group))] + tops, manifest) == Shown(group + tops, manifest) <==> Harmless(group, tops)
  {
    var manifest, flat := Merge(group + tops), [Stored(Merge(group))] + tops;
    SameAt(group, tops, []);
    ShownIsPlain(flat, manifest);
    ShownIsPlain(group + tops, manifest);
    forall p
      ensures Shows(Shown(flat, manifest), p) == Shows(Shown(group + tops, manifest), p) <==>
              ((Retained(group, p) || Revealed(group, p)) ==> DecidedBy(tops, p) || Settled(manifest, p))
    {
      SameAt(group, tops, p);
    }
    if Harmless(group, tops) {
      SameAtEveryPath(Shown(flat, manifest), Shown(group + tops, manifest));
    }
  }

  // ----- Whatever is on top -----

  /** No layers on top, however many, tell the stored merge from the group. */
  ghost predicate Invisible(group: seq<Entry>) {
    forall tops :: AreManifests(tops) ==>
      Shown([Stored(Merge(group))] + tops, Merge(group + tops)) == Shown(group + tops, Merge(group + tops))
  }

  /** One layer masks a name of the root, the next makes it an empty directory. */
  function Reopening(n: string): seq<Entry> {
    [Dir(map[n := MASK]), Dir(map[n := Dir(map[])])]
  }

  lemma Reopened(group: seq<Entry>, n: string)
    requires AreManifests(group)
    ensures AreManifests(Reopening(n))
    ensures var manifest := Merge(group + Reopening(n));
            manifest.kind.Tree? && n in manifest.entries && manifest.entries[n] == Dir(map[])
  {
    var tops, empty := Reopening(n), Dir(map[]);
    assert NoLeftovers(MASK) && NoLeftovers(empty);
    assert (group + tops)[..|group| + 1] == group + [tops[0]];
    assert (group + [tops[0]])[..|group|] == group;
    UpdateAt(Merge(group), tops[0], n);
    UpdateAt(Merge(group + [tops[0]]), tops[1], n);
    EntriesOnNothing(MASK, empty);
  }

  lemma NothingBelow(e: Entry, n: string, rest: Path)
    requires e.kind.Tree? && rest != [] && n in e.entries && e.entries[n] in {Dir(map[]), MASK}
    ensures !Says(e, [n] + rest).Gives? && !Says(e, [n] + rest).Hides?
    ensures e.entries[n] == Dir(map[]) ==> !Settled(e, [n] + rest)
  {
    OneStep(e, n, rest);
    assert ([n] + rest)[1..] == rest && rest == [rest[0]] + rest[1..];
    if e.entries[n] == Dir(map[]) {
      OneStep(e.entries[n], rest[0], rest[1..]);
      assert !Leads(e.entries[n], rest);
    }
  }

  lemma ReopeningSettlesNothing(group: seq<Entry>, p: Path)
    requires AreManifests(group) && |p| >= 2
    ensures var tops := Reopening(p[0]);
            AreManifests(tops) && !DecidedBy(tops, p) && !Settled(Merge(group + tops), p)
  {
    var tops := Reopening(p[0]);
    assert p == [p[0]] + p[1..];
    Reopened(group, p[0]);
    NothingBelow(tops[0], p[0], p[1..]);
    NothingBelow(tops[1], p[0], p[1..]);
    NothingBelow(Merge(group + tops), p[0], p[1..]);
  }

  lemma UpdateRoot(a: Entry, b: Entry, n: string)
    requires a.kind.Tree? && b.kind.Tree?
    ensures Says(Update(a, b), [n]) == if Says(b, [n]).Silent? then Says(a, [n]) else Says(b, [n])
  {
    assert [n] + [] == [n];
    OneStep(a, n, []);
    OneStep(b, n, []);
    OneStep(Update(a, b), n, []);
  }

  /** At the root, a name masked by the group stays masked until a layer gives it again. */
  lemma {:induction false} RootStaysMasked(group: seq<Entry>, tops: seq<Entry>, n: string)
    requires AreManifests(group) && AreManifests(tops) && Says(Merge(group), [n]).Masks? && !DecidedBy(tops, [n])
    ensures Says(Merge(group + tops), [n]).Masks?
    decreases |tops|
  {
    if tops == [] {
      assert group + tops == group;
    } else {
      var init := tops[..|tops| - 1];
      assert (group + tops)[..|group + tops| - 1] == group + init;
      DecidedByInit(tops, [n]);
      RootStaysMasked(group, init, n);
      MergeIsDirectory(group + init);
      UpdateRoot(Merge(group + init), tops[|tops| - 1], n);
      RootWords(tops[|tops| - 1], n);
    }
  }

  lemma RootWords(m: Entry, n: string)
    requires m.kind.Tree?
    ensures !Says(m, [n]).Hides?
  {
    assert [n] + [] == [n];
    OneStep(m, n, []);
  }

  lemma {:induction false} RetainedAtRoot(group: seq<Entry>, n: string)
    requires AreManifests(group) && LastGiver(group, [n]).Some? && MaskedAfter(group, [n], LastGiver(group, [n]).value)
    ensures Says(Merge(group), [n]).Masks?
  {
    var init, last := group[..|group| - 1], group[|group| - 1];
    var i := LastGiver(group, [n]).value;
    if i < |group| - 1 {
      AfterInit(group, [n], i);
      MergeIsDirectory(init);
      UpdateRoot(Merge(init), last, n);
      RootWords(last, n);
      if !Says(last, [n]).Masks? {
        RetainedAtRoot(init, n);
      }
    }
  }

  lemma HarmlessAtRoot(group: seq<Entry>, tops: seq<Entry>, p: Path)
    requires AreManifests(group) && AreManifests(tops) && |p| < 2 && (Retained(group, p) || Revealed(group, p))
    ensures DecidedBy(tops, p) || Settled(Merge(group + tops), p)
  {
    assert p == [p[0]];
    var i := LastGiver(group, p).value;
    if HiddenAfter(group, p, i) {
      var j :| i < j < |group| && Says(group[j], p).Hides?;
      RootWords(group[j], p[0]);
    } else {
      RetainedAtRoot(group, p[0]);
      if !DecidedBy(tops, p) {
        RootStaysMasked(group, tops, p[0]);
      }
    }
  }

  /**
    Flattening the bottom layers is invisible to all layers on top if and only if no path below
    the names of the root is retained or revealed.
   */
  lemma FlatteningIsInvisibleIff(group: seq<Entry>)
    requires AreManifests(group)
    ensures Invisible(group) <==> forall p :: |p| >= 2 ==> !Retained(group, p) && !Revealed(group, p)
  {
    if p :| |p| >= 2 && (Retained(group, p) || Revealed(group, p)) {
      var tops := Reopening(p[0]);
      ReopeningSettlesNothing(group, p);
      FlatteningShowsTheSameIff(group, tops);
      assert !Harmless(group, tops);
    } else {
      forall tops | AreManifests(tops)
        ensures Shown([Stored(Merge(group))] + tops, Merge(group + tops)) == Shown(group + tops, Merge(group + tops))
      {
        forall p | Retained(group, p) || Revealed(group, p)
          ensures DecidedBy(tops, p) || Settled(Merge(group + tops), p)
        {
          HarmlessAtRoot(group, tops, p);
        }
        FlatteningShowsTheSameIff(group, tops);
      }
    }
  }

  // ----- The layers of a runtime -----

  /** One element per layer that has a manifest, ordered by its place in the stack. */
  function Originals(layers: seq<Option<Entry>>, n: nat): (list: seq<Resolved<Entry>>)
    requires n <= |layers|
    ensures OnlyBottomGrouped(list)
    ensures forall i :: 0 <= i < |list| ==> list[i].Existing? && list[i].order < n && Some(list[i].manifest) in layers
    ensures forall i, j :: 0 <= i < j < |list| ==> list[i].order < list[j].order
  {
    if n == 0 then []
    else Originals(layers, n - 1) + (if layers[n - 1].Some? then [Existing(n - 1, layers[n - 1].value)] else [])
  }

  /** Every layer that has a manifest is there with it, and nothing else is. */
  lemma {:induction false} OriginalsAre(layers: seq<Option<Entry>>, n: nat)
    requires n <= |layers|
    ensures forall r :: r in Originals(layers, n) <==>
              r.Existing? && 0 <= r.order < n && layers[r.order] == Some(r.manifest)
  {
    if n > 0 {
      OriginalsAre(layers, n - 1);
      hide OnlyBottomGrouped;
    }
  }

  /** The manifests of the layers that have one, from bottom to top. */
  function LayerManifests(layers: seq<Option<Entry>>): seq<Entry> {
    Manifests(LeavesOf(Originals(layers, |layers|)))
  }

  /** The layers that one element stands for, and the layers above the bottom element. */
  function BottomGroup(list: seq<Resolved<Entry>>): seq<Entry> {
    if list == [] then [] else Manifests(Leaves(list[0]))
  }

  function Above(list: seq<Resolved<Entry>>): seq<Entry> {
    if list == [] then [] else Manifests(LeavesOf(list[1..]))
  }

  lemma SplitManifests(a: seq<Entry>, b: seq<Entry>)
    requires AreManifests(a + b)
    ensures AreManifests(a) && AreManifests(b)
  {
    assert forall i :: 0 <= i < |a| ==> a[i] == (a + b)[i];
    assert forall i :: 0 <= i < |b| ==> b[i] == (a + b)[|a| + i];
  }

  lemma SingleMerge(m: Entry)
    requires IsManifest(m)
    ensures Stored(Merge([m])) == m
  {
    var none: seq<Entry> := [];
    assert [m][..0] == none && Merge(none) == EMPTY;
    OnEmpty(m);
    StoredIsVisible(m);
    VisibleIsWhole(m);
  }

  /** What is mounted for a flattened list: the stored merge of the bottom, and the rest as it is. */
  lemma ResolvedList(list: seq<Resolved<Entry>>)
    requires OnlyBottomGrouped(list) && list != [] && AreManifests(Manifests(LeavesOf(list)))
    ensures AreManifests(BottomGroup(list)) && AreManifests(Above(list))
    ensures Manifests(LeavesOf(list)) == BottomGroup(list) + Above(list)
    ensures MergedAll(Update, EMPTY, Stored, list) == [Stored(Merge(BottomGroup(list)))] + Above(list)
  {
    var resolved := MergedAll(Update, EMPTY, Stored, list);
    ManifestsConcat(Leaves(list[0]), LeavesOf(list[1..]));
    SplitManifests(BottomGroup(list), Above(list));
    ExistingTail(Update, EMPTY, Stored, list);
    assert resolved == [resolved[0]] + resolved[1..];
    if list[0].Existing? {
      assert BottomGroup(list) == [list[0].manifest];
      SingleMerge(list[0].manifest);
    } else {
      MergeIsFold(BottomGroup(list));
    }
  }

  method CollectManifests(layers: seq<Option<Entry>>) returns (originals: seq<Resolved<Entry>>)
    ensures originals == Originals(layers, |layers|)
  {
    originals := [];
    for i := 0 to |layers|
      invariant originals == Originals(layers, i)
    {
      if layers[i].Some? {
        originals := originals + [Existing(i, layers[i].value)];
      }
    }
  }

  /**
    The manifests to mount for a stack of layers, or `None` for a loop that never ends: those of the
    first number of rounds that fits. The runtime shows what it would show unflattened if and only if
    the bottom group is harmless.
   */
  method ResolveOverlayDirs(layers: seq<Option<Entry>>, fits: seq<Entry> -> bool)
    returns (resolved: Option<seq<Entry>>, ghost list: seq<Resolved<Entry>>, ghost steps: seq<seq<Resolved<Entry>>>)
    requires forall l :: l in layers && l.Some? ==> IsManifest(l.value)
    ensures steps != [] && steps[0] == Originals(layers, |layers|)
    ensures forall i :: 0 < i < |steps| ==> steps[i] == Round(steps[i - 1])
    ensures forall i :: 0 <= i < |steps| ==> AllWellFormed(steps[i])
    ensures forall i :: 0 <= i < |steps| - 1 ==> !fits(Placeholders(steps[i]))
    ensures resolved.Some? ==> steps[|steps| - 1] == list && fits(Placeholders(list))
    ensures resolved.None? ==> |steps[|steps| - 1]| < 4 && !fits(Placeholders(steps[|steps| - 1]))
    ensures resolved.None? <==> forall k: nat :: !FitsAfter(Originals(layers, |layers|), k, fits)
    ensures resolved.Some? ==>
              exists k: nat :: list == Rounds(Originals(layers, |layers|), k)
                && FirstFit(Originals(layers, |layers|), k, fits)
    ensures resolved.Some? ==>
              && BottomGroup(list) + Above(list) == LayerManifests(layers)
              && resolved.value == (if list == [] then [] else [Stored(Merge(BottomGroup(list)))] + Above(list))
              && |resolved.value| == |list|
              && (Shown(resolved.value, Merge(LayerManifests(layers)))
                  == Shown(LayerManifests(layers), Merge(LayerManifests(layers)))
                  <==> Harmless(BottomGroup(list), Above(list)))
  {
    var originals := CollectManifests(layers);
    AllExisting(originals);
    hide Originals, Round, Rounds, FitsAfter, FirstFit, Stored, Merge, Shown, Harmless, BottomGroup, Above, MergedAll;
    var flattened;
    flattened, steps := FlattenUntilFits(originals, fits);
    list := [];
    if flattened.None? {
      return None, [], steps;
    }
    list := flattened.value;
    var manifests := MergeGroups(Update, EMPTY, Stored, flattened.value);
    ListShows(list);
    resolved := Some(manifests);
  }

  lemma ListShows(list: seq<Resolved<Entry>>)
    requires OnlyBottomGrouped(list) && AreManifests(Manifests(LeavesOf(list)))
    ensures Manifests(LeavesOf(list)) == BottomGroup(list) + Above(list)
    ensures list != [] ==> MergedAll(Update, EMPTY, Stored, list) == [Stored(Merge(BottomGroup(list)))] + Above(list)
    ensures var layers, resolved := Manifests(LeavesOf(list)), MergedAll(Update, EMPTY, Stored, list);
            Shown(resolved, Merge(layers)) == Shown(layers, Merge(layers)) <==> Harmless(BottomGroup(list), Above(list))
  {
    if list != [] {
      ResolvedList(list);
      FlatteningShowsTheSameIff(BottomGroup(list), Above(list));
    }
  }

  // ----- What flattening can bring back, and what it can take away -----

  /** The lowest layer holds a file in a directory, and the third makes the path a directory again. */
  function AroundMiddle(file: Entry, middle: Entry): seq<Entry> {
    [Dir(map["n" := Dir(map["x" := file])]), Dir(map["n" := middle]), Dir(map["n" := Dir(map[])])]
  }

  lemma AroundMiddleSays(file: Entry, middle: Entry)
    requires file.kind.File? && file.entries == map[] && (middle == MASK || middle == file)
    ensures var ms, p := AroundMiddle(file, middle), ["n", "x"];
            && AreManifests(ms) && Says(ms[0], p).Gives? && Says(ms[2], p).Silent?
            && Says(ms[1], p) == (if middle == MASK then Masks else Hides)
            && IsDir(MergeShows(ms, Parent(p)))
  {
    var ms, p := AroundMiddle(file, middle), ["n", "x"];
    assert NoLeftovers(file) && NoLeftovers(MASK) && NoLeftovers(Dir(map[])) && NoLeftovers(Dir(map["x" := file]));
    assert p == ["n"] + ["x"] && ["x"] == ["x"] + [] && Parent(p) == ["n"] && ["n"] + [] == ["n"];
    OneStep(ms[0], "n", ["x"]);
    OneStep(ms[0].entries["n"], "x", []);
    OneStep(ms[1], "n", ["x"]);
    OneStep(ms[2], "n", ["x"]);
    OneStep(ms[2].entries["n"], "x", []);
    OneStep(ms[2], "n", []);
    assert Says(ms[2], ["n"]) == Gives(Node(Tree, OPEN_DIR_MODE));
    assert Parent(["n"]) == [];
    RootShows(ms);
  }

  predicate SilentAbout(tops: seq<Entry>, n: string) {
    forall i :: 0 <= i < |tops| ==> n !in tops[i].entries
  }

  lemma {:induction false} SilentTops(group: seq<Entry>, tops: seq<Entry>, n: string)
    requires AreManifests(group) && AreManifests(tops) && SilentAbout(tops, n) && n in Merge(group).entries
    ensures n in Merge(group + tops).entries && Merge(group + tops).entries[n] == Merge(group).entries[n]
    decreases |tops|
  {
    if tops == [] {
      assert group + tops == group;
    } else {
      var init := tops[..|tops| - 1];
      assert (group + tops)[..|group + tops| - 1] == group + init;
      SilentTops(group, init, n);
      UpdateAt(Merge(group + init), tops[|tops| - 1], n);
    }
  }

  lemma MergeOfThree(a: Entry, b: Entry, c: Entry)
    requires a.kind.Tree?
    ensures Merge([a, b, c]) == Update(Update(a, b), c)
  {
    var none: seq<Entry> := [];
    assert [a, b, c][..2] == [a, b] && [a, b][..1] == [a] && [a][..0] == none;
    assert Merge([a]) == Update(Merge(none), a);
    OnEmpty(a);
  }

  /** What the merge has at the path: the file is back unless it was masked. */
  lemma AroundMiddleMerged(file: Entry, middle: Entry)
    requires file.kind.File? && file.entries == map[] && (middle == MASK || middle == file)
    ensures var merge := Merge(AroundMiddle(file, middle));
            && "n" in merge.entries && merge.kind.Tree?
            && merge.entries["n"] == Dir(if middle == MASK then map[] else map["x" := file])
  {
    var ms := AroundMiddle(file, middle);
    MergeOfThree(ms[0], ms[1], ms[2]);
    UpdateAt(ms[0], ms[1], "n");
    UpdateAt(Update(ms[0], ms[1]), ms[2], "n");
    assert NoLeftovers(Dir(map[]));
    EntriesOnNothing(MASK, Dir(map[]));
    var covered := Update(Dir(map["x" := file]), file);
    assert Update(covered, Dir(map[])).entries == map["x" := file];
  }

  /** Nothing above settles the path. */
  lemma AroundMiddleUnsettled(file: Entry, middle: Entry, tops: seq<Entry>)
    requires file.kind.File? && file.entries == map[] && (middle == MASK || middle == file)
    requires AreManifests(tops) && SilentAbout(tops, "n")
    ensures AreManifests(AroundMiddle(file, middle))
    ensures !DecidedBy(tops, ["n", "x"]) && !Settled(Merge(AroundMiddle(file, middle) + tops), ["n", "x"])
  {
    var group, p := AroundMiddle(file, middle), ["n", "x"];
    AroundMiddleSays(file, middle);
    AroundMiddleMerged(file, middle);
    SilentTops(group, tops, "n");
    MergeIsDirectory(group + tops);
    hide Merge;
    assert p == ["n"] + ["x"] && ["x"] == ["x"] + [] && p[1..] == ["x"];
    forall i | 0 <= i < |tops|
      ensures Says(tops[i], p).Silent?
    {
      OneStep(tops[i], "n", ["x"]);
    }
    var manifest := Merge(group + tops);
    OneStep(manifest, "n", ["x"]);
    OneStep(manifest.entries["n"], "x", []);
    assert !Leads(manifest.entries["n"], ["x"]);
  }

  /**
    A directory of the lowest layer is a file in the next and a directory again in the third.
    Overlaid, its old contents are gone; flattened into one, the three layers bring them back,
    whatever is above, as long as it does not speak of the directory.
   */
  lemma FlatteningRevealsAFile(file: Entry, tops: seq<Entry>)
    requires file.kind.File? && file.entries == map[] && AreManifests(tops) && SilentAbout(tops, "n")
    ensures var group := AroundMiddle(file, file);
            var manifest := Merge(group + tops);
            && Shows(Shown(group + tops, manifest), ["n", "x"]) == None
            && Shows(Shown([Stored(Merge(group))] + tops, manifest), ["n", "x"]) == Some(Node(file.kind, file.mode))
  {
    var group, p := AroundMiddle(file, file), ["n", "x"];
    AroundMiddleSays(file, file);
    AroundMiddleUnsettled(file, file, tops);
    assert LastGiver(group, p) == Some(0);
    assert Says(group[1], p).Hides?;
    GroupShown(group, tops, p);
  }

  /**
    The same with a mask in the middle: rendered layers have no masks, so overlaid, the old
    contents are still there; flattened, they are gone.
   */
  lemma FlatteningHidesAFile(file: Entry, tops: seq<Entry>)
    requires file.kind.File? && file.entries == map[] && AreManifests(tops) && SilentAbout(tops, "n")
    ensures var group := AroundMiddle(file, MASK);
            var manifest := Merge(group + tops);
            && Shows(Shown(group + tops, manifest), ["n", "x"]) == Some(Node(file.kind, file.mode))
            && Shows(Shown([Stored(Merge(group))] + tops, manifest), ["n", "x"]) == None
  {
    var group, p := AroundMiddle(file, MASK), ["n", "x"];
    AroundMiddleSays(file, MASK);
    AroundMiddleUnsettled(file, MASK, tops);
    assert LastGiver(group, p) == Some(0);
    assert Says(group[1], p).Masks?;
    GroupShown(group, tops, p);
  }

  /** At a path that nothing above settles, the group and its merge show through. */
  lemma GroupShown(group: seq<Entry>, tops: seq<Entry>, p: Path)
    requires AreManifests(group) && AreManifests(tops) && p != []
    requires !DecidedBy(tops, p) && !Settled(Merge(group + tops), p)
    ensures var i, manifest := LastGiver(group, p), Merge(group + tops);
            && Shows(Shown(group + tops, manifest), p)
               == (if i.Some? && !HiddenAfter(group, p, i.value) then Some(Says(group[i.value], p).node) else None)
            && Shows(Shown([Stored(Merge(group))] + tops, manifest), p)
               == (if IsDir(MergeShows(group, Parent(p))) && i.Some? && !MaskedAfter(group, p, i.value)
                   then Some(Says(group[i.value], p).node) else None)
  {
    SameAt(group, tops, p);
    StoredMerge(group);
    ShownAt(group + tops, Merge(group + tops), p);
    ShownAt([Stored(Merge(group))] + tops, Merge(group + tops), p);
    OnTop([Stored(Merge(group))], group, tops, p);
    ShowsMeans(group, p);
  }

  /** Contents that are given again with their directory are not revealed: there is nothing to see. */
  lemma GivenAgainIsInvisible(file: Entry)
    requires file.kind.File? && file.entries == map[]
    ensures var dir := Dir(map["n" := Dir(map["x" := file])]);
            AreManifests([dir, Dir(map["n" := file]), dir]) && Invisible([dir, Dir(map["n" := file]), dir])
  {
    var dir, middle := Dir(map["n" := Dir(map["x" := file])]), Dir(map["n" := file]);
    var group := [dir, middle, dir];
    assert NoLeftovers(file) && NoLeftovers(Dir(map["x" := file]));
    forall p | |p| >= 2
      ensures !Retained(group, p) && !Revealed(group, p)
    {
      var n, rest := p[0], p[1..];
      assert p == [n] + rest;
      OneStep(middle, n, rest);
      assert !Says(middle, p).Gives?;
      assert Says(group[0], p) == Says(group[2], p);
      assert LastGiver(group, p) == None || LastGiver(group, p) == Some(2);
    }
    FlatteningIsInvisibleIff(group);
  }

  // ----- Without masks -----

  lemma NoMasksNoRetained(group: seq<Entry>, p: Path)
    requires forall i :: 0 <= i < |group| ==> !HasMask(group[i])
    ensures !Retained(group, p)
  {
    forall i | 0 <= i < |group|
      ensures !Says(group[i], p).Masks?
    {
      NothingMasked(group[i], p);
    }
  }

  lemma WithoutMasksAt(group: seq<Entry>, p: Path)
    requires AreManifests(group) && forall i :: 0 <= i < |group| ==> !HasMask(group[i])
    ensures AreManifests([Stored(Merge(group))])
    ensures Shows(Mounted([Stored(Merge(group))]), p) == Shows(Mounted(group), p) <==> !Revealed(group, p)
    ensures !Retained(group, p) && (|p| < 2 ==> !Revealed(group, p))
  {
    var stored := [Stored(Merge(group))];
    StoredMerge(group);
    NoMasksNoRetained(group, p);
    MountedShows(stored, p);
    MountedShows(group, p);
    DifferIff(group, p);
    if |p| == 1 {
      assert p == [p[0]];
      forall i | 0 <= i < |group|
        ensures !Says(group[i], p).Hides?
      {
        RootWords(group[i], p[0]);
      }
    }
  }

  /** Without masks, flattening is invisible if and only if the merge is rendered as the stack is mounted. */
  lemma InvisibleWithoutMasksIff(group: seq<Entry>)
    requires AreManifests(group) && forall i :: 0 <= i < |group| ==> !HasMask(group[i])
    ensures Invisible(group) <==> Mounted([Stored(Merge(group))]) == Mounted(group)
  {
    var stored := [Stored(Merge(group))];
    WithoutMasksAt(group, []);
    FlatteningIsInvisibleIff(group);
    MountedIsPlain(stored);
    MountedIsPlain(group);
    hide Invisible, Revealed, Retained, Mounted, Merge, Plain, Shows;
    forall p
      ensures Shows(Mounted(stored), p) == Shows(Mounted(group), p) <==> !Revealed(group, p)
      ensures !Retained(group, p) && (|p| < 2 ==> !Revealed(group, p))
    {
      WithoutMasksAt(group, p);
    }
    if Invisible(group) {
      SameAtEveryPath(Mounted(stored), Mounted(group));
    }
  }
}
