/**
  From a stack of digests to the layers to mount: `resolve_stack_to_layers_with_repo` in
  `crates/spfs/src/resolve.rs`.

  Layers compare equal when they have the same manifest, whatever their annotations, so a layer
  is known by its optional manifest.
 */
module StackLayers {
  import opened Graph
  import opened LayerStack
  import opened StackMeaning

  type Key = Option<Digest>

  function KeysOf(layers: seq<Object>): seq<Key>
    requires forall l :: l in layers ==> l.Layer?
  {
    seq(|layers|, i requires 0 <= i < |layers| => layers[i].manifest)
  }

  /** All parts one after the other, unless one is missing. */
  function Join(parts: seq<Option<seq<Key>>>): (r: Option<seq<Key>>)
    ensures r.Some? <==> forall p :: p in parts ==> p.Some?
    ensures r.Some? ==> forall k :: k in r.value <==> exists p :: p in parts && p.Some? && k in p.value
  {
    if parts == [] then Some([])
    else
      var init, last := parts[..|parts| - 1], parts[|parts| - 1];
      assert parts == init + [last];
      if Join(init).Some? && last.Some? then Some(Join(init).value + last.value) else None
  }

  lemma LowerRank(objects: Objects, rank: Digest -> nat, d: Digest, distinct: seq<Digest>)
    requires Ranked(objects, rank) && d in objects && objects[d].Platform? && forall c :: c in distinct ==>
             c in objects[d].stack
    ensures forall i :: 0 <= i < |distinct| ==> rank(distinct[i]) < rank(d)
  {
    assert forall i :: 0 <= i < |distinct| ==> distinct[i] in distinct && Edge(objects, d, distinct[i]);
  }

  /** The layers below one digest, from bottom to top and with all repetitions. */
  ghost function One(objects: Objects, rank: Digest -> nat, d: Digest): Option<seq<Key>>
    requires Ranked(objects, rank)
    decreases rank(d)
  {
    if d !in objects then None
    else
      match objects[d]
      case Layer(manifest, _) => Some([manifest])
      case Manifest(_) => Some([Some(d)])
      case Blob(_) => None
      case Platform(stack) =>
        var distinct := Lasts(stack);
        LowerRank(objects, rank, d, distinct);
        Join(seq(|distinct|, i requires 0 <= i < |distinct| => One(objects, rank, distinct[i])))
  }

  ghost function Parts(objects: Objects, rank: Digest -> nat, stack: seq<Digest>): seq<Option<seq<Key>>>
    requires Ranked(objects, rank)
  {
    seq(|stack|, i requires 0 <= i < |stack| => One(objects, rank, stack[i]))
  }

  ghost function Expand(objects: Objects, rank: Digest -> nat, stack: seq<Digest>): Option<seq<Key>>
    requires Ranked(objects, rank)
  {
    Join(Parts(objects, rank, stack))
  }

  /** Only the first layer with a manifest. */
  method UniqueLayers(layers: seq<Object>) returns (kept: seq<Object>)
    requires forall l :: l in layers ==> l.Layer?
    ensures forall l :: l in kept ==> l in layers
    ensures KeysOf(kept) == Firsts(KeysOf(layers))
    ensures forall i :: 0 <= i < |layers| ==>
              (forall j :: 0 <= j < i ==> layers[j].manifest != layers[i].manifest) ==> layers[i] in kept
  {
    kept := [];
    var seen: set<Key> := {};
    ghost var keys := KeysOf(layers);
    for i := 0 to |layers|
      invariant forall l :: l in kept ==> l in layers
      invariant forall k :: k in seen <==> k in keys[..i]
      invariant KeysOf(kept) == Firsts(keys[..i])
      invariant FirstsAreKept(layers, kept, i)
    {
      hide Firsts, NoRepeats, KeysOf, FirstsAreKept;
      var layer := layers[i];
      KeysUpTo(layers, i);
      KeepNext(layers, kept, keys[..i], layer);
      FirstsKeptNext(layers, kept, i);
      if layer.manifest !in seen {
        kept := kept + [layer];
      }
      seen := seen + {layer.manifest};
    }
    assert keys[..|layers|] == keys;
    FirstsKeptMeans(layers, kept);
  }

  /** Of the first `n` layers, the first ones of their manifests are kept. */
  ghost predicate FirstsAreKept(layers: seq<Object>, kept: seq<Object>, n: nat)
    requires n <= |layers| && forall l :: l in layers ==> l.Layer?
  {
    forall k :: 0 <= k < n && layers[k].manifest !in KeysOf(layers)[..k] ==> layers[k] in kept
  }

  lemma FirstsKeptNext(layers: seq<Object>, kept: seq<Object>, n: nat)
    requires n < |layers| && (forall l :: l in layers ==> l.Layer?) && FirstsAreKept(layers, kept, n)
    ensures layers[n].manifest in KeysOf(layers)[..n] ==> FirstsAreKept(layers, kept, n + 1)
    ensures FirstsAreKept(layers, kept + [layers[n]], n + 1)
  {
  }

  lemma FirstsKeptMeans(layers: seq<Object>, kept: seq<Object>)
    requires (forall l :: l in layers ==> l.Layer?) && FirstsAreKept(layers, kept, |layers|)
    ensures forall i :: 0 <= i < |layers| ==>
              (forall j :: 0 <= j < i ==> layers[j].manifest != layers[i].manifest) ==> layers[i] in kept
  {
  }

  lemma KeepNext(layers: seq<Object>, kept: seq<Object>, keys: seq<Key>, layer: Object)
    requires layer in layers && layer.Layer? && (forall l :: l in layers ==> l.Layer?)
             && (forall l :: l in kept ==> l in layers)
    requires KeysOf(kept) == Firsts(keys)
    ensures layer.manifest in keys ==> KeysOf(kept) == Firsts(keys + [layer.manifest])
    ensures forall l :: l in kept + [layer] ==> l in layers
    ensures layer.manifest !in keys ==> KeysOf(kept + [layer]) == Firsts(keys + [layer.manifest])
  {
    hide Firsts, NoRepeats, KeysOf;
    FirstsNext(keys, layer.manifest);
    KeysOfNext(kept, layer);
  }

  lemma KeysUpTo(layers: seq<Object>, i: nat)
    requires i < |layers| && forall l :: l in layers ==> l.Layer?
    ensures layers[i] in layers && |KeysOf(layers)| == |layers|
    ensures KeysOf(layers)[..i + 1] == KeysOf(layers)[..i] + [layers[i].manifest]
  {
  }

  lemma KeysOfNext(layers: seq<Object>, layer: Object)
    requires layer.Layer? && forall l :: l in layers ==> l.Layer?
    ensures KeysOf(layers + [layer]) == KeysOf(layers) + [layer.manifest]
  {
  }

  lemma ExpandNext(objects: Objects, rank: Digest -> nat, stack: seq<Digest>, i: nat)
    requires Ranked(objects, rank) && i < |stack|
    ensures var init, one := Expand(objects, rank, stack[..i]), One(objects, rank, stack[i]);
            Expand(objects, rank, stack[..i + 1])
            == if init.Some? && one.Some? then Some(init.value + one.value) else None
    ensures One(objects, rank, stack[i]).None? ==> Expand(objects, rank, stack).None?
  {
    hide One;
    var parts := Parts(objects, rank, stack[..i + 1]);
    assert parts[..i] == Parts(objects, rank, stack[..i]);
    assert Parts(objects, rank, stack)[i] in Parts(objects, rank, stack);
  }

  lemma MoreLayers(found: seq<Object>, more: seq<Object>, a: seq<Key>, b: seq<Key>)
    requires (forall l :: l in found ==> l.Layer?) && (forall l :: l in more ==> l.Layer?)
    requires Firsts(KeysOf(found)) == Firsts(a) && Firsts(KeysOf(more)) == Firsts(b)
    ensures Firsts(KeysOf(found + more)) == Firsts(a + b)
  {
    hide Firsts;
    assert KeysOf(found + more) == KeysOf(found) + KeysOf(more);
    FirstsBefore(KeysOf(found), KeysOf(more));
    FirstsInside(Firsts(a), KeysOf(more));
    FirstsInside(Firsts(a), b);
    FirstsBefore(a, b);
  }

  /** Everything in the stack ranks below `above`. */
  ghost predicate Below(rank: Digest -> nat, stack: seq<Digest>, above: nat) {
    forall d :: d in stack ==> rank(d) < above
  }

  /** A layer that is stored, or one made for a stored manifest. */
  predicate IsFound(objects: Objects, l: Object) {
    l in objects.Values || (l.Layer? && l.manifest.Some? && l.annotations == []
                            && l.manifest.value in objects && objects[l.manifest.value].Manifest?)
  }

  /**
    The layers of a stack; `None` stands for an object that cannot be read or mounted. Repeats
    are dropped at every level, which comes to dropping them once in the whole expansion.
   */
  method ResolveStack(objects: Objects, ghost rank: Digest -> nat, stack: seq<Digest>, ghost above: nat)
    returns (layers: Option<seq<Object>>)
    requires Ranked(objects, rank) && Below(rank, stack, above)
    ensures layers.Some? <==> Expand(objects, rank, stack).Some?
    ensures layers.Some? ==> forall l :: l in layers.value ==> l.Layer? && IsFound(objects, l)
    ensures layers.Some? ==> KeysOf(layers.value) == Firsts(Expand(objects, rank, stack).value)
    decreases above, 0, 0
  {
    var found: seq<Object> := [];
    for i := 0 to |stack|
      invariant forall l :: l in found ==> l.Layer? && IsFound(objects, l)
      invariant Expand(objects, rank, stack[..i]).Some?
      invariant Firsts(KeysOf(found)) == Firsts(Expand(objects, rank, stack[..i]).value)
    {
      assert stack[i] in stack;
      ExpandNext(objects, rank, stack, i);
      var more := ResolveOne(objects, rank, stack[i]);
      if more.None? {
        return None;
      }
      MoreLayers(found, more.value, Expand(objects, rank, stack[..i]).value, One(objects, rank, stack[i]).value);
      found := found + more.value;
    }
    assert stack[..|stack|] == stack;
    var kept := UniqueLayers(found);
    layers := Some(kept);
  }

  method ResolveOne(objects: Objects, ghost rank: Digest -> nat, d: Digest) returns (layers: Option<seq<Object>>)
    requires Ranked(objects, rank)
    ensures layers.Some? <==> One(objects, rank, d).Some?
    ensures layers.Some? ==> forall l :: l in layers.value ==> l.Layer? && IsFound(objects, l)
    ensures layers.Some? ==> Firsts(KeysOf(layers.value)) == Firsts(One(objects, rank, d).value)
    decreases rank(d), 1, 0
  {
    if d !in objects {
      return None;
    }
    match objects[d]
    case Layer(manifest, _) =>
      assert KeysOf([objects[d]]) == [manifest];
      layers := Some([objects[d]]);
    case Manifest(_) =>
      assert KeysOf([Layer(Some(d), [])]) == [Some(d)];
      layers := Some([Layer(Some(d), [])]);
    case Blob(_) => layers := None;
    case Platform(stack) =>
      OneOfPlatform(objects, rank, d);
      layers := ResolvePlatform(objects, rank, d, stack);
  }

  method ResolvePlatform(objects: Objects, ghost rank: Digest -> nat, ghost d: Digest, stack: seq<Digest>)
    returns (layers: Option<seq<Object>>)
    requires Ranked(objects, rank) && d in objects && objects[d] == Platform(stack)
    ensures layers.Some? <==> Expand(objects, rank, Lasts(stack)).Some?
    ensures layers.Some? ==> forall l :: l in layers.value ==> l.Layer? && IsFound(objects, l)
    ensures layers.Some? ==> Firsts(KeysOf(layers.value)) == Firsts(Expand(objects, rank, Lasts(stack)).value)
    decreases rank(d), 0, 1
  {
    hide One, Expand, NoRepeats;
    assert forall c :: c in Lasts(stack) ==> Edge(objects, d, c);
    var distinct := new LayerStack.Stack();
    assert distinct.items + stack == stack;
    distinct.Extend(stack);
    layers := ResolveStack(objects, rank, distinct.items, rank(d));
    if layers.Some? {
      FirstsOfDistinct(KeysOf(layers.value));
    }
  }

  // ----- When a stack can be resolved -----

  /** The references that are followed: those of the platforms. */
  function Platforms(objects: Objects): Objects {
    map d | d in objects && objects[d].Platform? :: objects[d]
  }

  predicate Mountable(objects: Objects, d: Digest) {
    d in objects && !objects[d].Blob?
  }

  ghost predicate AllMountable(objects: Objects, roots: set<Digest>) {
    forall d :: Reachable(Platforms(objects), roots, d) ==> Mountable(objects, d)
  }

  lemma OneOfPlatform(objects: Objects, rank: Digest -> nat, d: Digest)
    requires Ranked(objects, rank) && d in objects && objects[d].Platform?
    ensures One(objects, rank, d) == Expand(objects, rank, Lasts(objects[d].stack))
  {
  }

  /** One stack on top of another. */
  lemma {:induction false} ExpandConcat(objects: Objects, rank: Digest -> nat, a: seq<Digest>, b: seq<Digest>)
    requires Ranked(objects, rank)
    ensures var p, q := Expand(objects, rank, a), Expand(objects, rank, b);
            Expand(objects, rank, a + b) == if p.Some? && q.Some? then Some(p.value + q.value) else None
  {
    hide One, Expand, Ranked;
    if b == [] {
      var p := Expand(objects, rank, a);
      assert a + b == a && (p.Some? ==> p.value + [] == p.value);
      ExpandNone(objects, rank);
    } else {
      var init := b[..|b| - 1];
      ExpandConcat(objects, rank, a, init);
      ExpandNext(objects, rank, b, |b| - 1);
      ExpandNext(objects, rank, a + b, |a + b| - 1);
      assert (a + b)[..|a + b| - 1] == a + init && (a + b)[..|a + b|] == a + b && b[..|b|] == b;
      var p, q, one := Expand(objects, rank, a), Expand(objects, rank, init), One(objects, rank, b[|b| - 1]);
      assert p.Some? && q.Some? && one.Some? ==> (p.value + q.value) + one.value == p.value + (q.value + one.value);
    }
  }

  lemma ExpandNone(objects: Objects, rank: Digest -> nat)
    requires Ranked(objects, rank)
    ensures Expand(objects, rank, []) == Some([])
  {
  }

  /** A stack without platforms is its layers, a manifest being a layer of its own. */
  lemma {:induction false} FlatStack(objects: Objects, rank: Digest -> nat, stack: seq<Digest>)
    requires Ranked(objects, rank)
    requires forall d :: d in stack ==> d in objects && (objects[d].Layer? || objects[d].Manifest?)
    ensures Expand(objects, rank, stack).Some? && |Expand(objects, rank, stack).value| == |stack|
    ensures forall i :: 0 <= i < |stack| ==>
              Expand(objects, rank, stack).value[i] ==
              if objects[stack[i]].Layer? then objects[stack[i]].manifest else Some(stack[i])
  {
    if stack == [] {
      ExpandNone(objects, rank);
    } else {
      var init, last := stack[..|stack| - 1], stack[|stack| - 1];
      assert forall d :: d in init ==> d in stack;
      FlatStack(objects, rank, init);
      ExpandNext(objects, rank, stack, |stack| - 1);
      assert stack[..|stack|] == stack && last in stack;
      assert One(objects, rank, last) ==
             Some([if objects[last].Layer? then objects[last].manifest else Some(last)]);
      hide One, Expand;
    }
  }

  lemma ExpandSome(objects: Objects, rank: Digest -> nat, stack: seq<Digest>)
    requires Ranked(objects, rank)
    ensures Expand(objects, rank, stack).Some? <==> forall d :: d in stack ==> One(objects, rank, d).Some?
  {
    hide One, Join, Ranked;
    var parts := Parts(objects, rank, stack);
    assert |parts| == |stack|;
    forall i | 0 <= i < |stack|
      ensures parts[i] in parts && parts[i] == One(objects, rank, stack[i]) && stack[i] in stack
    {
    }
    forall d | d in stack
      ensures exists i :: 0 <= i < |stack| && stack[i] == d && parts[i] == One(objects, rank, d)
    {
    }
  }

  lemma {:induction false} MountableExpands(objects: Objects, rank: Digest -> nat, roots: set<Digest>, d: Digest)
    requires Ranked(objects, rank) && AllMountable(objects, roots) && Reachable(Platforms(objects), roots, d)
    ensures One(objects, rank, d).Some?
    decreases rank(d)
  {
    assert Mountable(objects, d);
    if objects[d].Platform? {
      var distinct := Lasts(objects[d].stack);
      forall c | c in distinct
        ensures One(objects, rank, c).Some?
      {
        assert Edge(objects, d, c) && Edge(Platforms(objects), d, c);
        ReachableStep(Platforms(objects), roots, d, c);
        MountableExpands(objects, rank, roots, c);
      }
      ExpandSome(objects, rank, distinct);
      OneOfPlatform(objects, rank, d);
    }
  }

  ghost function Expandable(objects: Objects, rank: Digest -> nat): set<Digest>
    requires Ranked(objects, rank)
  {
    set d | d in objects && One(objects, rank, d).Some?
  }

  lemma ExpandableCovers(objects: Objects, rank: Digest -> nat, p: Digest, c: Digest)
    requires Ranked(objects, rank) && p in Expandable(objects, rank) && Edge(Platforms(objects), p, c)
    ensures c in Expandable(objects, rank)
  {
    OneOfPlatform(objects, rank, p);
    ExpandSome(objects, rank, Lasts(objects[p].stack));
    assert c in Lasts(objects[p].stack);
  }

  /** A stack can be resolved exactly when everything found through its platforms can be mounted. */
  lemma ResolvableIff(objects: Objects, rank: Digest -> nat, stack: seq<Digest>)
    requires Ranked(objects, rank)
    ensures Expand(objects, rank, stack).Some? <==> AllMountable(objects, set d | d in stack)
  {
    var roots := set d | d in stack;
    ExpandSome(objects, rank, stack);
    if Expand(objects, rank, stack).Some? {
      var good := Expandable(objects, rank);
      assert Covers(Platforms(objects), roots, good) by {
        forall p, c | p in good && Edge(Platforms(objects), p, c)
          ensures c in good
        {
          ExpandableCovers(objects, rank, p, c);
        }
      }
      forall d | Reachable(Platforms(objects), roots, d)
        ensures Mountable(objects, d)
      {
        CoverHoldsReachable(Platforms(objects), roots, good, d);
      }
    }
    if AllMountable(objects, roots) {
      forall d | d in stack
        ensures One(objects, rank, d).Some?
      {
        RootReachable(Platforms(objects), roots, d);
        MountableExpands(objects, rank, roots, d);
      }
    }
  }

  ghost function Bound(rank: Digest -> nat, stack: seq<Digest>): (above: nat)
    ensures Below(rank, stack, above)
  {
    if stack == [] then 0
    else
      var rest := Bound(rank, stack[1..]);
      assert stack == [stack[0]] + stack[1..];
      rest + rank(stack[0]) + 1
  }

  /** The layers of a stack, resolved exactly when everything found through platforms can be mounted. */
  method ResolveStackToLayers(objects: Objects, ghost rank: Digest -> nat, stack: seq<Digest>)
    returns (layers: Option<seq<Object>>)
    requires Ranked(objects, rank)
    ensures layers.Some? <==> AllMountable(objects, set d | d in stack)
    ensures layers.Some? ==> forall l :: l in layers.value ==> 
              && l.Layer?
              && (|| l in objects.Values
                  || (l.annotations == [] && l.manifest.Some? && l.manifest.value in objects
                      && objects[l.manifest.value].Manifest?))
    ensures var whole := Expand(objects, rank, stack);
            layers.Some? ==> whole.Some? && KeysOf(layers.value) == Firsts(whole.value)
  {
    ResolvableIff(objects, rank, stack);
    layers := ResolveStack(objects, rank, stack, Bound(rank, stack));
  }

  // ----- What the resolved layers show -----

  /** The manifests of the layers that have one. */
  function Mounted(keys: seq<Key>): (r: seq<Digest>)
    ensures forall d :: d in r <==> Some(d) in keys
  {
    if keys == [] then []
    else
      var init, last := keys[..|keys| - 1], keys[|keys| - 1];
      assert keys == init + [last];
      Mounted(init) + (if last.Some? then [last.value] else [])
  }

  lemma MountedNext(keys: seq<Key>, k: Key)
    ensures Mounted(keys + [k]) == if k.Some? then Mounted(keys) + [k.value] else Mounted(keys)
  {
  }

  lemma {:induction false} MountedFirsts(keys: seq<Key>)
    ensures Mounted(Firsts(keys)) == Firsts(Mounted(keys))
  {
    if keys != [] {
      MountedFirsts(keys[..|keys| - 1]);
      MountedFirstsNext(keys[..|keys| - 1], keys[|keys| - 1]);
      assert keys == keys[..|keys| - 1] + [keys[|keys| - 1]];
    }
  }

  lemma MountedFirstsNext(init: seq<Key>, last: Key)
    requires Mounted(Firsts(init)) == Firsts(Mounted(init))
    ensures Mounted(Firsts(init + [last])) == Firsts(Mounted(init + [last]))
  {
    hide *;
    MountedNext(init, last);
    FirstsNext(init, last);
    MountedNext(Firsts(init), last);
    if last.Some? {
      assert last.value in Mounted(init) <==> last in init;
      FirstsNext(Mounted(init), last.value);
    }
  }

  /**
    Whatever the manifests hold, the resolved layers have the merged manifest of the whole
    expansion, and show the same when mounted, if and only if the first and the last occurrences
    of the manifests come in the same order.
   */
  lemma ResolvedShowsTheSameIff(keys: seq<Key>)
    ensures SameForAll(Mounted(Firsts(keys)), Mounted(keys)) <==> Firsts(Mounted(keys)) == Lasts(Mounted(keys))
    ensures SameView(Mounted(Firsts(keys)), Mounted(keys)) <==> Firsts(Mounted(keys)) == Lasts(Mounted(keys))
  {
    MountedFirsts(keys);
    FirstsShowTheSameIff(Mounted(keys));
    FirstsMountTheSameIff(Mounted(keys));
  }

  /**
    A layer above a platform that also holds it stays where the platform has it, so the other
    layer of the platform ends up on top.
   */
  lemma UpperCopyIsDropped(objects: Objects, rank: Digest -> nat, a: Digest, b: Digest)
    requires a != b && Ranked(objects, rank)
    requires objects == map[1 := Layer(Some(a), []), 2 := Layer(Some(b), []), 3 := Platform([1, 2])]
    ensures Expand(objects, rank, [3, 1]) == Some([Some(a), Some(b), Some(a)])
    ensures Firsts([a, b, a]) == [a, b] && !SameForAll([a, b], [a, b, a]) && !SameView([a, b], [a, b, a])
  {
    hide *;
    var both: seq<Digest> := [1, 2];
    NoRepeatsMeans(both);
    LastsOfDistinct(both);
    OneOfPlatform(objects, rank, 3);
    OneOfLayer(objects, rank, 1);
    OneOfLayer(objects, rank, 2);
    TwoParts(objects, rank, 1, 2);
    TwoParts(objects, rank, 3, 1);
    assert [Some(a)] + [Some(b)] + [Some(a)] == [Some(a), Some(b), Some(a)];
    FirstOfThree(a, b);
  }

  lemma OneOfLayer(objects: Objects, rank: Digest -> nat, d: Digest)
    requires Ranked(objects, rank) && d in objects && objects[d].Layer?
    ensures One(objects, rank, d) == Some([objects[d].manifest])
  {
  }

  lemma FirstOfThree(a: Digest, b: Digest)
    requires a != b
    ensures Firsts([a, b, a]) == [a, b] && !SameForAll([a, b], [a, b, a]) && !SameView([a, b], [a, b, a])
  {
    FirstsOfDistinct([a, b]);
    LastsOfDistinct([a, b]);
    assert [a, b, a] == [a, b] + [a];
    FirstsNext([a, b], a);
    assert [a, b, a][..2] == [a, b] && Lasts([a, b, a]) == Without([a, b], a) + [a];
    hide *;
    assert Lasts([a, b, a]) != [a, b];
    FirstsShowTheSameIff([a, b, a]);
    FirstsMountTheSameIff([a, b, a]);
  }

  lemma JoinTwo(p: Option<seq<Key>>, q: Option<seq<Key>>)
    requires p.Some? && q.Some?
    ensures Join([p, q]) == Some(p.value + q.value)
  {
    var none: seq<Option<seq<Key>>> := [];
    assert Join(none) == Some([]) && [p][..0] == none;
    assert Join([p]) == Some([] + p.value) && [] + p.value == p.value;
    assert [p, q][..1] == [p];
  }

  lemma TwoParts(objects: Objects, rank: Digest -> nat, x: Digest, y: Digest)
    requires Ranked(objects, rank) && One(objects, rank, x).Some? && One(objects, rank, y).Some?
    ensures Expand(objects, rank, [x, y]) == Some(One(objects, rank, x).value + One(objects, rank, y).value)
  {
    hide One, Ranked, Join;
    assert Parts(objects, rank, [x, y]) == [One(objects, rank, x), One(objects, rank, y)];
    JoinTwo(One(objects, rank, x), One(objects, rank, y));
  }
}
