/**
  The syncer of `crates/spfs/src/sync.rs` run one task at a time.

  Every operation on a repository may fail at any moment; a failure is passed up and stops
  the sync. `history` records the destination after each single write.
 */
module SequentialSync {
  import opened Graph
  import opened SyncProtocol

  function WithObject(repo: Repo, d: Digest, obj: Object): Repo {
    repo.(objects := repo.objects[d := obj])
  }

  function WithPayload(repo: Repo, p: Digest): Repo {
    repo.(payloads := repo.payloads + {p})
  }

  function WithTag(repo: Repo, tag: string, target: Digest): Repo {
    repo.(tags := repo.tags[tag := target])
  }

  ghost predicate OneWrite(content: Objects, before: Repo, after: Repo) {
    || (exists d :: d in content && after == WithObject(before, d, content[d]))
    || (exists p :: after == WithPayload(before, p))
    || (exists t, d :: after == WithTag(before, t, d))
  }

  /** The states of the destination, from the first to the current one, a write apart. */
  ghost predicate Trace(content: Objects, history: seq<Repo>, dest: Repo) {
    && |history| > 0 && history[|history| - 1] == dest
    && (forall i :: 0 < i < |history| ==> OneWrite(content, history[i - 1], history[i]))
  }

  type ClosedRepo = repo: Repo | Closed(repo) witness Repo(map[], {}, map[])

  class Syncer {
    const src: Repo
    const policy: Policy
    const content: Objects
    ghost const rank: Digest -> nat
    var dest: ClosedRepo
    var processed: set<Digest>
    var history: seq<ClosedRepo>

    constructor (src: Repo, dest: ClosedRepo, policy: Policy, content: Objects, ghost rank: Digest -> nat)
      ensures this.src == src && this.dest == dest && this.policy == policy
      ensures this.content == content && this.rank == rank
      ensures processed == {} && history == [dest]
    {
      this.src, this.dest, this.policy, this.content, this.rank := src, dest, policy, content, rank;
      processed, history := {}, [dest];
    }

    /** What holds at every moment: the destination has been closed after each write so far. */
    ghost predicate Valid()
      reads this
    {
      && ContentAddressed(content) && Ranked(content, rank)
      && Within(src.objects, content) && Within(dest.objects, content)
      && Trace(content, history, dest)
    }

    /** What has been processed is stored, unless it is being worked on further up. */
    ghost predicate Settled(active: set<Digest>)
      reads this
    {
      forall d :: d in processed ==> d in active || d in dest.objects
    }

    ghost predicate Below(d: Digest, active: set<Digest>) {
      forall a :: a in active ==> rank(d) < rank(a)
    }

    /** A child ranks below everything that its parent is worked on for, and below the parent. */
    lemma ChildBelow(d: Digest, c: Digest, active: set<Digest>)
      requires Ranked(content, rank) && Below(d, active) && Edge(content, d, c)
      ensures Below(c, active + {d}) && rank(c) < rank(d)
    {
    }

    lemma EntryIsBlob(d: Digest, c: Digest)
      requires ContentAddressed(content) && Edge(content, d, c) && content[d].Manifest?
      ensures c in content && content[c] == Blob(c)
    {
    }

    /** Nothing stored, processed or recorded is ever taken back. */
    twostate predicate Grows()
      reads this
    {
      && old(dest.objects.Keys) <= dest.objects.Keys && old(dest.payloads) <= dest.payloads
      && old(processed) <= processed
      && old(history) <= history
    }

    /** And no tag is touched while an object is synced. */
    twostate predicate Extends()
      reads this
    {
      Grows() && dest.tags == old(dest.tags)
    }

    /** An object that is there is left alone, unless the policy is to resync objects; then it is written. */
    twostate predicate FollowsPolicy(d: Digest, ok: bool)
      reads this
    {
      && ((policy.MissingDataOnly? || policy.LatestTags?) && d in old(dest.objects) ==>
            dest == old(dest) && history == old(history))
      && ((policy.LatestTagsAndResyncObjects? || policy.ResyncEverything?) && d !in old(processed) && ok ==>
            |history| > |old(history)|)
    }

    method Write(after: ClosedRepo) returns (ok: bool)
      requires Valid() && OneWrite(content, dest, after) && Within(after.objects, content)
      requires dest.objects.Keys <= after.objects.Keys && dest.payloads <= after.payloads
      modifies this`dest, this`history
      ensures Valid() && Grows()
      ensures dest == if ok then after else old(dest)
      ensures history == if ok then old(history) + [after] else old(history)
    {
      ok := *;
      if ok {
        dest, history := after, history + [after];
      }
    }

    method WriteObject(d: Digest) returns (ok: bool)
      requires Valid() && d in content
      requires content[d].Blob? ==> content[d].payload in dest.payloads
      requires forall c :: c in ChildObjects(content[d]) ==> c in dest.objects
      modifies this`dest, this`history
      ensures Valid() && Extends() && (ok ==> d in dest.objects && |history| > |old(history)|)
    {
      StillClosed(dest, content, d);
      ok := Write(WithObject(dest, d, content[d]));
    }

    method SyncPayload(d: Digest) returns (ok: bool)
      requires Valid() && d in content && content[d].Blob?
      requires d in processed ==> d in dest.objects
      modifies this`dest, this`history
      ensures Valid() && Extends() && (ok ==> d in dest.payloads)
    {
      if d in processed {
        assert Holds(dest, d);
        return true;
      }
      if policy.CheckExistingPayloads() && d in dest.payloads {
        return true;
      }
      if d !in src.payloads {
        return false;
      }
      var created: Digest := *;
      ok := Write(WithPayload(dest, created));
      ok := ok && created == d;
    }

    method SyncBlob(d: Digest, ghost active: set<Digest>) returns (ok: bool)
      requires Valid() && Settled(active) && Below(d, active) && d in content && content[d] == Blob(d)
      modifies this
      ensures Valid() && Extends()
      ensures ok ==> Settled(active) && d in dest.objects
      ensures FollowsPolicy(d, ok)
    {
      if d in processed {
        return true;
      }
      if policy.CheckExistingObjects() && d in dest.objects && d in dest.payloads {
        processed := processed + {d};
        return true;
      }
      ok := SyncPayload(d);
      if ok {
        ok := WriteObject(d);
      }
      if ok {
        processed := processed + {d};
      }
    }

    method SyncManifest(d: Digest, ghost active: set<Digest>) returns (ok: bool)
      requires Valid() && Settled(active) && Below(d, active) && d in content && content[d].Manifest?
      modifies this
      ensures Valid() && Extends()
      ensures ok ==> Settled(active) && d in dest.objects
      ensures FollowsPolicy(d, ok)
      decreases rank(d), 0
    {
      if d in processed {
        return true;
      }
      processed := processed + {d};
      if policy.CheckExistingObjects() && d in dest.objects {
        return true;
      }
      ok := SyncEntries(d, EntryBlobs(content[d].entries), active);
      if ok {
        ok := WriteObject(d);
      }
    }

    /** The blob entries of manifest `d`, in any order. */
    method SyncEntries(ghost d: Digest, blobs: seq<Digest>, ghost active: set<Digest>) returns (ok: bool)
      requires Valid() && Settled(active + {d}) && Below(d, active) && d in content && content[d].Manifest?
      requires forall c :: c in blobs ==> Edge(content, d, c)
      modifies this
      ensures Valid() && Extends()
      ensures ok ==> Settled(active + {d}) && forall c :: c in blobs ==> c in dest.objects
    {
      hide Edge, Ranked, Within, Trace, Closed, ContentAddressed;
      var todo := multiset(blobs);
      while todo != multiset{}
        invariant todo <= multiset(blobs)
        invariant Valid() && Settled(active + {d}) && Extends()
        invariant forall c :: c in blobs ==> c in todo || c in dest.objects
        decreases |todo|
      {
        var c :| c in todo;
        assert c in multiset(blobs) && Edge(content, d, c);
        ChildBelow(d, c, active);
        EntryIsBlob(d, c);
        ok := SyncBlob(c, active + {d});
        if !ok {
          return;
        }
        todo := todo - multiset{c};
      }
      ok := true;
    }

    method SyncLayer(d: Digest, ghost active: set<Digest>) returns (ok: bool)
      requires Valid() && Settled(active) && Below(d, active) && d in content && content[d].Layer?
      modifies this
      ensures Valid() && Extends()
      ensures ok ==> Settled(active) && d in dest.objects
      ensures FollowsPolicy(d, ok)
      decreases rank(d), 1
    {
      if d in processed {
        return true;
      }
      processed := processed + {d};
      if policy.CheckExistingObjects() && d in dest.objects {
        return true;
      }
      var layer := content[d];
      if layer.manifest.Some? {
        var m := layer.manifest.value;
        if m !in src.objects || !src.objects[m].Manifest? {
          return false;
        }
        assert Edge(content, d, m);
        ok := SyncManifest(m, active + {d});
        if !ok {
          return;
        }
      }
      ok := SyncAnnotations(d, AnnotationBlobs(layer.annotations), active);
      if ok {
        ok := WriteObject(d);
      }
    }

    /** The annotations of layer `d` that are blobs, one after the other. */
    method SyncAnnotations(ghost d: Digest, blobs: seq<Digest>, ghost active: set<Digest>) returns (ok: bool)
      requires Valid() && Settled(active + {d}) && Below(d, active)
      requires forall c :: c in blobs ==> Edge(content, d, c)
      modifies this
      ensures Valid() && Extends()
      ensures ok ==> Settled(active + {d}) && forall c :: c in blobs ==> c in dest.objects
      decreases rank(d), 0
    {
      hide Edge, Ranked, Within, Trace, Closed, ContentAddressed;
      for i := 0 to |blobs|
        invariant Valid() && Settled(active + {d}) && Extends()
        invariant forall j :: 0 <= j < i ==> blobs[j] in dest.objects
      {
        assert blobs[i] in blobs;
        ChildBelow(d, blobs[i], active);
        ok := SyncDigest(blobs[i], active + {d});
        if !ok {
          return;
        }
      }
      ok := true;
    }

    method SyncPlatform(d: Digest, ghost active: set<Digest>) returns (ok: bool)
      requires Valid() && Settled(active) && Below(d, active) && d in content && content[d].Platform?
      modifies this
      ensures Valid() && Extends()
      ensures ok ==> Settled(active) && d in dest.objects
      ensures FollowsPolicy(d, ok)
      decreases rank(d), 1
    {
      if d in processed {
        return true;
      }
      processed := processed + {d};
      if policy.CheckExistingObjects() && d in dest.objects {
        return true;
      }
      ok := SyncStack(d, content[d].stack, active);
      if ok {
        ok := WriteObject(d);
      }
    }

    /** The stack of platform `d`, in any order. */
    method SyncStack(ghost d: Digest, stack: seq<Digest>, ghost active: set<Digest>) returns (ok: bool)
      requires Valid() && Settled(active + {d}) && Below(d, active)
      requires forall c :: c in stack ==> Edge(content, d, c)
      modifies this
      ensures Valid() && Extends()
      ensures ok ==> Settled(active + {d}) && forall c :: c in stack ==> c in dest.objects
      decreases rank(d), 0
    {
      hide Edge, Ranked, Within, Trace, Closed, ContentAddressed;
      var todo := multiset(stack);
      while todo != multiset{}
        invariant todo <= multiset(stack)
        invariant Valid() && Settled(active + {d}) && Extends()
        invariant forall c :: c in stack ==> c in todo || c in dest.objects
        decreases |todo|
      {
        var c :| c in todo;
        assert c in multiset(stack) && Edge(content, d, c);
        ChildBelow(d, c, active);
        ok := SyncDigest(c, active + {d});
        if !ok {
          return;
        }
        todo := todo - multiset{c};
      }
      ok := true;
    }

    method SyncDigest(d: Digest, ghost active: set<Digest>) returns (ok: bool)
      requires Valid() && Settled(active) && Below(d, active)
      modifies this
      ensures Valid() && Extends()
      ensures ok ==> Settled(active) && d in dest.objects
      ensures FollowsPolicy(d, ok)
      decreases rank(d), 2
    {
      if d in processed {
        return true;
      }
      ok := *;
      if !ok || !(d in src.objects || (policy.CheckExistingObjects() && d in dest.objects)) {
        return false;
      }
      match content[d]
      case Blob(_) => ok := SyncBlob(d, active);
      case Manifest(_) => ok := SyncManifest(d, active);
      case Layer(_, _) => ok := SyncLayer(d, active);
      case Platform(_) => ok := SyncPlatform(d, active);
    }

    method SyncTag(tag: string) returns (ok: bool)
      requires Valid() && Settled({})
      modifies this
      ensures Valid() && Grows()
      ensures ok ==> tag in dest.tags && dest.tags[tag] in dest.objects
      ensures policy.MissingDataOnly? && tag in old(dest.tags) ==> ok && dest.tags == old(dest.tags)
      ensures ok && !(policy.MissingDataOnly? && tag in old(dest.tags)) ==>
                tag in src.tags && dest.tags == old(dest.tags)[tag := src.tags[tag]]
      ensures !ok ==> dest.tags == old(dest.tags)
    {
      if policy.CheckExistingTags() && tag in dest.tags {
        return true;
      }
      if tag !in src.tags {
        return false;
      }
      var target := src.tags[tag];
      ok := SyncDigest(target, {});
      if ok {
        ok := Write(WithTag(dest, tag, target));
      }
    }
  }

  lemma StillClosed(repo: Repo, content: Objects, d: Digest)
    requires Closed(repo) && d in content && Within(repo.objects, content)
    requires content[d].Blob? ==> content[d].payload in repo.payloads
    requires forall c :: c in ChildObjects(content[d]) ==> c in repo.objects
    ensures Closed(WithObject(repo, d, content[d]))
  {
    var after := WithObject(repo, d, content[d]);
    forall p, c | Edge(after.objects, p, c)
      ensures c in after.objects
    {
      if p != d {
        assert Edge(repo.objects, p, c);
      }
    }
    forall p | p in after.objects
      ensures Holds(after, p)
    {
      assert p != d ==> Holds(repo, p);
    }
  }

  /**
    One top-level sync by a fresh syncer, one task at a time: the destination is closed after
    every single write, wherever the sync stops, and a sync that succeeds has stored the whole
    graph below the digest.
   */
  method SyncOnce(src: Repo, dest: Repo, policy: Policy, content: Objects, ghost rank: Digest -> nat, d: Digest)
    returns (ok: bool, result: Repo, history: seq<Repo>)
    requires ContentAddressed(content) && Ranked(content, rank)
    requires Within(src.objects, content) && Within(dest.objects, content) && Closed(dest)
    ensures Trace(content, history, result) && history[0] == dest
    ensures forall i :: 0 <= i < |history| ==> Closed(history[i])
    ensures ok ==> forall r :: Reachable(content, {d}, r) ==> Holds(result, r)
    ensures result.tags == dest.tags && dest.objects.Keys <= result.objects.Keys && dest.payloads <= result.payloads
  {
    var syncer := new Syncer(src, dest, policy, content, rank);
    ok := syncer.SyncDigest(d, {});
    result, history := syncer.dest, syncer.history;
    if ok {
      forall r | Reachable(content, {d}, r)
        ensures Holds(result, r)
      {
        ClosedHoldsReachable(result, content, {d}, r);
      }
    }
  }
}
