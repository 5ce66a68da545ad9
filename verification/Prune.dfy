/**
  Pruning the history of one tag: `crates/spfs/src/prune.rs` and `prune_tag_stream` in
  `crates/spfs/src/clean.rs`. A history lists its entries from the newest to the oldest, and
  the version of an entry is its position in that list.
 */
module Prune {
  import opened Graph

  datatype Tag = Tag(target: Digest, time: int)

  datatype PruneParameters = PruneParameters(
    pruneIfOlderThan: Option<int>,
    keepIfNewerThan: Option<int>,
    pruneIfVersionMoreThan: Option<nat>,
    keepIfVersionLessThan: Option<nat>
  ) {
    predicate IsEmpty() {
      pruneIfOlderThan.None? && pruneIfVersionMoreThan.None?
    }

    predicate ShouldPrune(version: nat, tag: Tag) {
      if keepIfVersionLessThan.Some? && version < keepIfVersionLessThan.value then false
      else if keepIfNewerThan.Some? && tag.time > keepIfNewerThan.value then false
      else if pruneIfVersionMoreThan.Some? && version > pruneIfVersionMoreThan.value then true
      else pruneIfOlderThan.Some? && tag.time < pruneIfOlderThan.value
    }
  }

  /** How one tag stream is to be pruned; `inNamespace` says whether its namespace is. */
  datatype Config = Config(params: PruneParameters, repeated: Option<nat>, inNamespace: bool) {
    predicate Valid() {
      repeated.Some? ==> repeated.value > 0
    }
  }

  /** How many of the first `n` entries with this target were not dropped as repeats. */
  function Seen(config: Config, history: seq<Tag>, n: nat, target: Digest): nat
    requires n <= |history|
    decreases n, 0
  {
    if n == 0 then 0
    else
      Seen(config, history, n - 1, target) +
      (if history[n - 1].target == target && !IsRepeat(config, history, n - 1) then 1 else 0)
  }

  /** The entry at `i` comes after as many entries with its target as are to be kept. */
  predicate IsRepeat(config: Config, history: seq<Tag>, i: nat)
    requires i < |history|
    decreases i, 1
  {
    config.inNamespace && config.repeated.Some? && Seen(config, history, i, history[i].target) > 0 &&
    Seen(config, history, i, history[i].target) >= config.repeated.value
  }

  predicate IsPruned(config: Config, history: seq<Tag>, i: nat)
    requires i < |history|
  {
    IsRepeat(config, history, i) || (config.inNamespace && config.params.ShouldPrune(i, history[i]))
  }

  /** The entries among the first `n` that are kept, in their order. */
  function Kept(config: Config, history: seq<Tag>, n: nat): seq<Tag>
    requires n <= |history|
  {
    if n == 0 then []
    else Kept(config, history, n - 1) + (if IsPruned(config, history, n - 1) then [] else [history[n - 1]])
  }

  function Pruned(config: Config, history: seq<Tag>, n: nat): seq<Tag>
    requires n <= |history|
  {
    if n == 0 then []
    else Pruned(config, history, n - 1) + (if IsPruned(config, history, n - 1) then [history[n - 1]] else [])
  }

  /**
    The loop over a history, with its count of the targets seen so far. The entries that are pruned and
    those that are kept stay in their order. In a namespace that is pruned, an entry goes when as many
    newer entries have its target as are to be kept, or when no keep rule protects it and its version
    is too high or it is too old; nothing else goes.
   */
  method PruneTagStream(config: Config, history: seq<Tag>)
    returns (toPrune: seq<Tag>, toKeep: seq<Tag>, ghost gone: seq<nat>, ghost left: seq<nat>)
    requires config.Valid()
    ensures toPrune == Pruned(config, history, |history|)
    ensures toKeep == Kept(config, history, |history|)
    ensures |gone| == |toPrune| && forall k :: 0 <= k < |gone| ==> gone[k] < |history| && toPrune[k] == history[gone[k]]
    ensures |left| == |toKeep| && forall k :: 0 <= k < |left| ==> left[k] < |history| && toKeep[k] == history[left[k]]
    ensures forall j, k :: 0 <= j < k < |gone| ==> gone[j] < gone[k]
    ensures forall j, k :: 0 <= j < k < |left| ==> left[j] < left[k]
    ensures forall i :: 0 <= i < |history| ==> (i in left <==> i !in gone)
    ensures var params := config.params;
            forall i :: 0 <= i < |history| ==>
              (i in gone <==>
                 && config.inNamespace
                 && (|| (config.repeated.Some? &&
                         |set j | 0 <= j < i && history[j].target == history[i].target| >= config.repeated.value)
                     || (&& (params.keepIfVersionLessThan.None? || i >= params.keepIfVersionLessThan.value)
                         && (params.keepIfNewerThan.None? || history[i].time <= params.keepIfNewerThan.value)
                         && (|| (params.pruneIfVersionMoreThan.Some? && i > params.pruneIfVersionMoreThan.value)
                             || (params.pruneIfOlderThan.Some? && history[i].time < params.pruneIfOlderThan.value)))))
  {
    toPrune, toKeep := [], [];
    var seenTargets: map<Digest, nat> := map[];
    for i := 0 to |history|
      invariant toPrune == Pruned(config, history, i)
      invariant toKeep == Kept(config, history, i)
      invariant forall d :: (d in seenTargets) == (Seen(config, history, i, d) > 0)
      invariant forall d :: d in seenTargets ==> seenTargets[d] == Seen(config, history, i, d)
    {
      var tag := history[i];
      var count := 1;
      if tag.target in seenTargets {
        if config.repeated.Some? && config.inNamespace && seenTargets[tag.target] >= config.repeated.value {
          toPrune := toPrune + [tag];
          continue;
        }
        count := seenTargets[tag.target] + 1;
      }
      seenTargets := seenTargets[tag.target := count];
      if config.inNamespace && config.params.ShouldPrune(i, tag) {
        toPrune := toPrune + [tag];
      } else {
        toKeep := toKeep + [tag];
      }
    }
    gone, left := Places(config, history, |history|);
    forall i | 0 <= i < |history|
      ensures IsRepeat(config, history, i) <==>
                config.inNamespace && config.repeated.Some? &&
                |set j | 0 <= j < i && history[j].target == history[i].target| >= config.repeated.value
    {
      RepeatIff(config, history, i);
    }
  }

  // ----- Which entries are pruned -----

  /** How many of the first `n` entries have the target. */
  function Occurrences(history: seq<Tag>, n: nat, target: Digest): nat
    requires n <= |history|
  {
    if n == 0 then 0
    else Occurrences(history, n - 1, target) + (if history[n - 1].target == target then 1 else 0)
  }

  function Min(a: nat, b: nat): nat { if a < b then a else b }

  lemma {:induction false} OccurrencesCount(history: seq<Tag>, n: nat, target: Digest)
    requires n <= |history|
    ensures Occurrences(history, n, target) == |set j | 0 <= j < n && history[j].target == target|
  {
    var all := set j | 0 <= j < n && history[j].target == target;
    if n > 0 {
      var before := set j | 0 <= j < n - 1 && history[j].target == target;
      OccurrencesCount(history, n - 1, target);
      assert all == if history[n - 1].target == target then before + {n - 1} else before;
    } else {
      assert all == {};
    }
  }

  /** Entries that the other rules prune count like any other. */
  lemma {:induction false} SeenUpTo(config: Config, history: seq<Tag>, n: nat, target: Digest)
    requires config.Valid() && config.inNamespace && config.repeated.Some? && n <= |history|
    ensures Seen(config, history, n, target) == Min(Occurrences(history, n, target), config.repeated.value)
  {
    if n > 0 {
      SeenUpTo(config, history, n - 1, target);
    }
  }

  lemma RepeatIff(config: Config, history: seq<Tag>, i: nat)
    requires config.Valid() && i < |history|
    ensures IsRepeat(config, history, i) <==>
              config.inNamespace && config.repeated.Some? &&
              |set j | 0 <= j < i && history[j].target == history[i].target| >= config.repeated.value
  {
    OccurrencesCount(history, i, history[i].target);
    if config.inNamespace && config.repeated.Some? {
      SeenUpTo(config, history, i, history[i].target);
    }
  }

  /** Where the pruned and the kept entries come from. */
  lemma {:induction false} Places(config: Config, history: seq<Tag>, n: nat) returns (gone: seq<nat>, left: seq<nat>)
    requires n <= |history|
    ensures var pruned, kept := Pruned(config, history, n), Kept(config, history, n);
            && |gone| == |pruned| && (forall k :: 0 <= k < |gone| ==> gone[k] < n && pruned[k] == history[gone[k]])
            && |left| == |kept| && (forall k :: 0 <= k < |left| ==> left[k] < n && kept[k] == history[left[k]])
    ensures forall j, k :: 0 <= j < k < |gone| ==> gone[j] < gone[k]
    ensures forall j, k :: 0 <= j < k < |left| ==> left[j] < left[k]
    ensures forall i :: 0 <= i < n ==> (i in gone <==> IsPruned(config, history, i)) && (i in left <==> i !in gone)
  {
    gone, left := [], [];
    if n > 0 {
      gone, left := Places(config, history, n - 1);
      if IsPruned(config, history, n - 1) {
        gone := gone + [n - 1];
      } else {
        left := left + [n - 1];
      }
    }
  }

  /** What is pruned would be pruned at any earlier time, too. */
  lemma EarlierIsPruned(params: PruneParameters, version: nat, tag: Tag, time: int)
    requires params.ShouldPrune(version, tag) && time <= tag.time
    ensures params.ShouldPrune(version, tag.(time := time))
  {
  }

  // ----- Pruning is idempotent -----

  /** Kept entries move to lower versions, never to higher ones. */
  lemma KeptLength(config: Config, history: seq<Tag>, n: nat)
    requires n <= |history|
    ensures |Kept(config, history, n)| <= n
  {
  }

  /** Repeat counts over a prefix do not look past it. */
  lemma {:induction false} SeenOfPrefix(config: Config, history: seq<Tag>, longer: seq<Tag>, n: nat, target: Digest)
    requires n <= |history| && history <= longer
    ensures Seen(config, history, n, target) == Seen(config, longer, n, target)
    decreases n
  {
    if n > 0 {
      SeenOfPrefix(config, history, longer, n - 1, target);
      SeenOfPrefix(config, history, longer, n - 1, history[n - 1].target);
    }
  }

  lemma {:induction false} KeptOfPrefix(config: Config, history: seq<Tag>, longer: seq<Tag>, n: nat)
    requires n <= |history| && history <= longer
    ensures Kept(config, history, n) == Kept(config, longer, n)
  {
    if n > 0 {
      KeptOfPrefix(config, history, longer, n - 1);
      SeenOfPrefix(config, history, longer, n - 1, history[n - 1].target);
    }
  }

  /** An entry kept at one version is kept at any lower version. */
  lemma KeptAtLowerVersion(params: PruneParameters, version: nat, lower: nat, tag: Tag)
    requires lower <= version && !params.ShouldPrune(version, tag)
    ensures !params.ShouldPrune(lower, tag)
  {
  }

  /**
    Pruning the kept entries again keeps them all, and meets each target no more often than the
    first pass did.
   */
  lemma {:induction false} SecondPassKeeps(config: Config, history: seq<Tag>, n: nat)
    requires config.Valid() && n <= |history|
    ensures var kept := Kept(config, history, n);
            && Kept(config, kept, |kept|) == kept
            && forall d :: Seen(config, kept, |kept|, d) <= Seen(config, history, n, d)
  {
    if n > 0 {
      var before := Kept(config, history, n - 1);
      var kept := Kept(config, history, n);
      var tag := history[n - 1];
      SecondPassKeeps(config, history, n - 1);
      if IsPruned(config, history, n - 1) {
        assert kept == before;
      } else {
        assert kept == before + [tag];
        KeptOfPrefix(config, before, kept, |before|);
        forall d
          ensures Seen(config, before, |before|, d) == Seen(config, kept, |before|, d)
        {
          SeenOfPrefix(config, before, kept, |before|, d);
        }
        KeptLength(config, history, n - 1);
        assert !IsRepeat(config, kept, |before|);
        if config.inNamespace {
          KeptAtLowerVersion(config.params, n - 1, |before|, tag);
        }
      }
    }
  }

  function Times(list: seq<Tag>, tag: Tag): nat {
    if list == [] then 0
    else Times(list[..|list| - 1], tag) + (if list[|list| - 1] == tag then 1 else 0)
  }

  lemma TimesNext(list: seq<Tag>, last: Tag, tag: Tag)
    ensures Times(list + [last], tag) == Times(list, tag) + (if last == tag then 1 else 0)
  {
    assert (list + [last])[..|list|] == list;
  }

  /** Every entry is either kept or pruned: each is found as often in both together as in the history. */
  lemma {:induction false} KeptOrPruned(config: Config, history: seq<Tag>, n: nat, tag: Tag)
    requires n <= |history|
    ensures Times(Kept(config, history, n), tag) + Times(Pruned(config, history, n), tag) == Times(history[..n], tag)
    ensures |Kept(config, history, n)| + |Pruned(config, history, n)| == n
    decreases n
  {
    if n > 0 {
      SplitNext(config, history, n);
      KeptOrPruned(config, history, n - 1, tag);
      hide IsPruned, Kept, Pruned;
      CountNext(Kept(config, history, n - 1), Pruned(config, history, n - 1), history, n, tag);
    }
  }

  lemma CountNext(kept: seq<Tag>, pruned: seq<Tag>, history: seq<Tag>, n: nat, tag: Tag)
    requires 0 < n <= |history| && Times(kept, tag) + Times(pruned, tag) == Times(history[..n - 1], tag)
    ensures Times(kept + [history[n - 1]], tag) + Times(pruned, tag) == Times(history[..n], tag)
    ensures Times(kept, tag) + Times(pruned + [history[n - 1]], tag) == Times(history[..n], tag)
  {
    hide Times;
    TimesNext(kept, history[n - 1], tag);
    TimesNext(pruned, history[n - 1], tag);
    TimesNext(history[..n - 1], history[n - 1], tag);
    assert history[..n] == history[..n - 1] + [history[n - 1]];
  }

  lemma SplitNext(config: Config, history: seq<Tag>, n: nat)
    requires 0 < n <= |history|
    ensures var kept, pruned, tag := Kept(config, history, n - 1), Pruned(config, history, n - 1), history[n - 1];
            if IsPruned(config, history, n - 1)
            then Kept(config, history, n) == kept && Pruned(config, history, n) == pruned + [tag]
            else Kept(config, history, n) == kept + [tag] && Pruned(config, history, n) == pruned
  {
    hide IsPruned;
  }

  /** A second pass over the kept entries, with their new versions, prunes nothing. */
  lemma PruningIsIdempotent(config: Config, history: seq<Tag>)
    requires config.Valid()
    ensures var kept := Kept(config, history, |history|);
            Pruned(config, kept, |kept|) == [] && Kept(config, kept, |kept|) == kept
  {
    var kept := Kept(config, history, |history|);
    SecondPassKeeps(config, history, |history|);
    KeptOrPruned(config, kept, |kept|, Tag(0, 0));
  }

  // ----- What pruning only repeats keeps -----

  /** The targets of the entries, as the walk of the kept tags starts from them. */
  function Targets(history: seq<Tag>): set<Digest> {
    set i | 0 <= i < |history| :: history[i].target
  }

  lemma {:induction false} OccurrencesOfAppend(history: seq<Tag>, tag: Tag, n: nat, target: Digest)
    requires n <= |history|
    ensures Occurrences(history + [tag], n, target) == Occurrences(history, n, target)
  {
    if n > 0 {
      OccurrencesOfAppend(history, tag, n - 1, target);
    }
  }

  /** Each target keeps as many entries as it has, up to the number to be kept. */
  lemma {:induction false} RepeatsKeptUpTo(config: Config, history: seq<Tag>, n: nat, target: Digest)
    requires config.Valid() && config.inNamespace && config.repeated.Some? && config.params.IsEmpty()
    requires n <= |history|
    ensures var kept := Kept(config, history, n);
            && Occurrences(kept, |kept|, target) == Seen(config, history, n, target)
            && Seen(config, history, n, target) == Min(Occurrences(history, n, target), config.repeated.value)
  {
    if n > 0 {
      var before := Kept(config, history, n - 1);
      RepeatsKeptUpTo(config, history, n - 1, target);
      assert IsPruned(config, history, n - 1) == IsRepeat(config, history, n - 1);
      if IsPruned(config, history, n - 1) {
        assert Kept(config, history, n) == before;
      } else {
        OccurrencesOfAppend(before, history[n - 1], |before|, target);
        assert Kept(config, history, n) == before + [history[n - 1]];
      }
    }
  }

  lemma {:induction false} OccursIffTarget(history: seq<Tag>, n: nat, target: Digest)
    requires n <= |history|
    ensures Occurrences(history, n, target) > 0 <==> exists i :: 0 <= i < n && history[i].target == target
  {
    if n > 0 {
      OccursIffTarget(history, n - 1, target);
    }
  }

  /**
    With only repeat pruning configured, the kept entries have the same targets as the whole
    history, so cleaning attaches the same objects; and no target keeps more than `repeated`.
   */
  lemma RepeatPruningKeepsTargets(config: Config, history: seq<Tag>, objects: Objects, d: Digest)
    requires config.Valid() && config.inNamespace && config.repeated.Some? && config.params.IsEmpty()
    ensures var kept := Kept(config, history, |history|);
            && Targets(kept) == Targets(history)
            && (Reachable(objects, Targets(kept), d) <==> Reachable(objects, Targets(history), d))
            && (forall t :: t in Targets(history) ==> 1 <= Occurrences(kept, |kept|, t) <= config.repeated.value)
  {
    var kept := Kept(config, history, |history|);
    forall t
      ensures t in Targets(kept) <==> t in Targets(history)
      ensures t in Targets(history) ==> 1 <= Occurrences(kept, |kept|, t) <= config.repeated.value
    {
      RepeatsKeptUpTo(config, history, |history|, t);
      OccursIffTarget(kept, |kept|, t);
      OccursIffTarget(history, |history|, t);
    }
    assert Targets(kept) == Targets(history);
  }
}
