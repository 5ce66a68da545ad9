/**
  The content-addressed object graph shared by syncing, cleaning and checking.

  A digest is only ever compared, so it is modelled as a number. Two repositories never
  disagree about the object behind a digest; `content` stands for that one assignment of
  objects to digests, and the objects of every repository are a sub-map of it.
 */
module Graph {

  datatype Option<+T> = None | Some(value: T)

  type Digest = nat

  datatype AnnotationValue = Text | BlobRef(digest: Digest)

  datatype EntryKind = TreeEntry | BlobEntry | MaskEntry

  datatype ManifestEntry = ManifestEntry(kind: EntryKind, target: Digest)

  datatype Object =
    | Platform(stack: seq<Digest>)
    | Layer(manifest: Option<Digest>, annotations: seq<AnnotationValue>)
    | Manifest(entries: seq<ManifestEntry>)
    | Blob(payload: Digest)

  type Objects = map<Digest, Object>

  /** The digests of the annotations that are stored as blobs. */
  function AnnotationBlobs(annotations: seq<AnnotationValue>): (blobs: seq<Digest>)
    ensures forall d :: d in blobs <==> BlobRef(d) in annotations
  {
    if annotations == [] then []
    else
      (if annotations[0].BlobRef? then [annotations[0].digest] else []) + AnnotationBlobs(annotations[1..])
  }

  /** The digests of the blob entries, trees and masks being skipped. */
  function EntryBlobs(entries: seq<ManifestEntry>): (blobs: seq<Digest>)
    ensures forall d :: d in blobs <==> ManifestEntry(BlobEntry, d) in entries
  {
    if entries == [] then []
    else
      (if entries[0].kind.BlobEntry? then [entries[0].target] else []) + EntryBlobs(entries[1..])
  }

  function ChildObjects(obj: Object): seq<Digest> {
    match obj
    case Platform(stack) => stack
    case Layer(manifest, annotations) =>
      (if manifest.Some? then [manifest.value] else []) + AnnotationBlobs(annotations)
    case Manifest(entries) => EntryBlobs(entries)
    case Blob(_) => []
  }

  ghost predicate Edge(objects: Objects, parent: Digest, child: Digest) {
    parent in objects && child in ChildObjects(objects[parent])
  }

  /**
    What an object refers to: a platform to its stack, a layer to its manifest and the annotations that
    are blobs, a manifest to its blob entries, and a blob to nothing.
   */
  lemma EdgeIff(objects: Objects, parent: Digest, child: Digest)
    requires parent in objects
    ensures Edge(objects, parent, child) <==>
              match objects[parent]
              case Platform(stack) => child in stack
              case Layer(manifest, annotations) => manifest == Some(child) || BlobRef(child) in annotations
              case Manifest(entries) => ManifestEntry(BlobEntry, child) in entries
              case Blob(_) => false
  {
  }

  /** A walk is a non-empty sequence of digests joined by edges. */
  ghost predicate Walk(objects: Objects, path: seq<Digest>) {
    |path| > 0 &&
    (|path| > 1 ==> Edge(objects, path[|path| - 2], path[|path| - 1]) && Walk(objects, path[..|path| - 1]))
  }

  ghost predicate WalkTo(objects: Objects, roots: set<Digest>, path: seq<Digest>, d: Digest) {
    Walk(objects, path) && path[0] in roots && path[|path| - 1] == d
  }

  /** `d` is named by a root or by a chain of present objects starting at one. */
  ghost predicate Reachable(objects: Objects, roots: set<Digest>, d: Digest) {
    exists path :: WalkTo(objects, roots, path, d)
  }

  lemma RootReachable(objects: Objects, roots: set<Digest>, d: Digest)
    requires d in roots
    ensures Reachable(objects, roots, d)
  {
    assert WalkTo(objects, roots, [d], d);
  }

  lemma ReachableStep(objects: Objects, roots: set<Digest>, parent: Digest, child: Digest)
    requires Reachable(objects, roots, parent)
    requires Edge(objects, parent, child)
    ensures Reachable(objects, roots, child)
  {
    var path :| WalkTo(objects, roots, path, parent);
    assert (path + [child])[..|path|] == path;
    assert WalkTo(objects, roots, path + [child], child);
  }

  /** The set holds the roots and every child of its members that are present. */
  ghost predicate Covers(objects: Objects, roots: set<Digest>, members: set<Digest>) {
    roots <= members &&
    forall d, c :: d in members && Edge(objects, d, c) ==> c in members
  }

  lemma CoverHoldsReachable(objects: Objects, roots: set<Digest>, members: set<Digest>, d: Digest)
    requires Covers(objects, roots, members)
    requires Reachable(objects, roots, d)
    ensures d in members
  {
    var path :| WalkTo(objects, roots, path, d);
    CoverHoldsWalk(objects, roots, members, path);
  }

  lemma {:induction false} CoverHoldsWalk(objects: Objects, roots: set<Digest>, members: set<Digest>, path: seq<Digest>)
    requires Covers(objects, roots, members)
    requires Walk(objects, path) && path[0] in roots
    ensures path[|path| - 1] in members
  {
    if |path| > 1 {
      CoverHoldsWalk(objects, roots, members, path[..|path| - 1]);
    }
  }

  lemma ConcatAssociates<T>(a: seq<T>, b: seq<T>, c: seq<T>)
    ensures a + (b + c) == (a + b) + c
  {
  }

  datatype Repo = Repo(objects: Objects, payloads: set<Digest>, tags: map<string, Digest>)

  /** The object is stored, together with its payload when it is a blob. */
  ghost predicate Holds(repo: Repo, d: Digest) {
    d in repo.objects && (repo.objects[d].Blob? ==> repo.objects[d].payload in repo.payloads)
  }

  /** Nothing that is stored refers to something that is not. */
  ghost predicate Closed(repo: Repo) {
    && (forall d :: d in repo.objects ==> Holds(repo, d))
    && (forall d, c :: Edge(repo.objects, d, c) ==> c in repo.objects)
    && (forall t :: t in repo.tags ==> repo.tags[t] in repo.objects)
  }

  predicate Within(objects: Objects, content: Objects) {
    forall d :: d in objects ==> d in content && objects[d] == content[d]
  }

  /**
    A blob shares its digest with its payload, and a blob entry of a manifest names a blob.
   */
  ghost predicate ContentAddressed(content: Objects) {
    && (forall d :: d in content && content[d].Blob? ==> content[d].payload == d)
    && (forall d, c :: d in content && content[d].Manifest? && c in ChildObjects(content[d]) ==>
          c in content && content[c] == Blob(c))
  }

  /** Children rank strictly below their parents: a digest cannot contain itself. */
  ghost predicate Ranked(content: Objects, rank: Digest -> nat) {
    forall d, c :: Edge(content, d, c) ==> rank(c) < rank(d)
  }

  lemma ClosedHoldsReachable(repo: Repo, content: Objects, roots: set<Digest>, d: Digest)
    requires Closed(repo) && Within(repo.objects, content)
    requires roots <= repo.objects.Keys
    requires Reachable(content, roots, d)
    ensures Holds(repo, d)
  {
    assert Covers(content, roots, repo.objects.Keys) by {
      forall p, c | p in repo.objects.Keys && Edge(content, p, c)
        ensures c in repo.objects.Keys
      {
        assert Edge(repo.objects, p, c);
      }
    }
    CoverHoldsReachable(content, roots, repo.objects.Keys, d);
  }
}
