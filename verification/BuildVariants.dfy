/**
  What the requirements of a variant make of a recipe's options, which values they get, and how they
  are written into the bytes of a build, said without the functions that compute it.
 */
module BuildVariants {
  import opened Graph
  import opened Lexical
  import opened BuildDigest

  // ----- Components -----

  predicate HasKey(components: seq<(string, string)>, k: string) {
    exists c :: c in components && c.0 == k
  }

  lemma KeyInMap(components: seq<(string, string)>, k: string)
    ensures k in ToMap(components) <==> HasKey(components, k)
  {
    MapKeys(components, k);
    if i :| 0 <= i < |components| && components[i].0 == k {
      assert components[i] in components;
    }
  }

  /** The components of both, and no others. */
  lemma {:induction false} UnionHolds(a: seq<(string, string)>, b: seq<(string, string)>)
    ensures forall k :: k in ToMap(Union(a, b)) <==> k in ToMap(a) || k in ToMap(b)
    ensures forall c :: c in Union(a, b) ==> c in a || c in b
    decreases |b|
  {
    if b != [] {
      var more := Put(a, b[0].0, b[0].1);
      UnionHolds(more, b[1..]);
      PutMap(a, b[0].0, b[0].1);
      PutKeys(a, b[0].0, b[0].1);
      hide Put, ToMap;
      MapOfRest(b);
      forall c | c in Union(a, b)
        ensures c in a || c in b
      {
        if c in more {
          var i :| 0 <= i < |more| && more[i] == c;
        }
      }
    }
  }

  lemma MapOfRest(b: seq<(string, string)>)
    requires b != []
    ensures forall k :: k in ToMap(b) <==> k == b[0].0 || k in ToMap(b[1..])
  {
  }

  lemma UnionKeys(a: seq<(string, string)>, b: seq<(string, string)>, k: string)
    ensures HasKey(Union(a, b), k) <==> HasKey(a, k) || HasKey(b, k)
  {
    UnionHolds(a, b);
    KeyInMap(Union(a, b), k);
    KeyInMap(a, k);
    KeyInMap(b, k);
  }

  // ----- Where the options of a variant come from -----

  predicate Same(all: seq<Opt>, f: nat, j: nat)
    requires f < |all| && j < |all|
  {
    all[f].Pkg? && all[j].Pkg? && all[j].pkg == all[f].pkg
  }

  predicate First(all: seq<Opt>, j: nat)
    requires j < |all|
  {
    forall i :: 0 <= i < j ==> FullName(all[i]) != FullName(all[j])
  }

  ghost predicate SomeComponent(all: seq<Opt>, f: nat, k: string)
    requires f < |all|
  {
    exists j :: 0 <= j < |all| && Same(all, f, j) && HasKey(all[j].components, k)
  }

  ghost predicate ComponentsGathered(all: seq<Opt>, f: nat, components: seq<(string, string)>)
    requires f < |all|
  {
    && (forall k :: HasKey(components, k) <==> SomeComponent(all, f, k))
    && (forall c :: c in components ==> exists j :: 0 <= j < |all| && Same(all, f, j) && c in all[j].components)
  }

  ghost predicate LastDefault(all: seq<Opt>, f: nat, default: string)
    requires f < |all|
  {
    exists j :: 0 <= j < |all| && Same(all, f, j) && default == all[j].default &&
                forall i :: j < i < |all| ==> !Same(all, f, i)
  }

  /** The option that its first mention and all later ones together make. */
  ghost predicate Describes(all: seq<Opt>, f: nat, o: Opt)
    requires f < |all|
  {
    if all[f].Var? then o == all[f]
    else
      && o.Pkg? && o.pkg == all[f].pkg && o.value == all[f].value
      && ComponentsGathered(all, f, o.components) && LastDefault(all, f, o.default)
  }

  ghost predicate Gathered(all: seq<Opt>, opts: seq<Opt>, from: seq<nat>) {
    && |from| == |opts|
    && (forall k :: 0 <= k < |from| ==> from[k] < |all| && Describes(all, from[k], opts[k]))
    && (forall j, k :: 0 <= j < k < |from| ==> from[j] < from[k])
    && (forall j :: 0 <= j < |all| ==> (j in from <==> First(all, j)))
  }

  lemma {:induction false} FirstMention(all: seq<Opt>, j: nat) returns (f: nat)
    requires j < |all|
    ensures f <= j && First(all, f) && FullName(all[f]) == FullName(all[j])
    decreases j
  {
    if i :| 0 <= i < j && FullName(all[i]) == FullName(all[j]) {
      f := FirstMention(all, i);
    } else {
      f := j;
    }
  }

  lemma DescribedName(all: seq<Opt>, f: nat, o: Opt)
    requires f < |all| && Describes(all, f, o)
    ensures FullName(o) == FullName(all[f]) && (o.Pkg? <==> all[f].Pkg?)
  {
  }

  lemma GatheredNames(all: seq<Opt>, opts: seq<Opt>, from: seq<nat>, n: string)
    requires Gathered(all, opts, from)
    ensures HasName(opts, n) <==> HasName(all, n)
  {
    hide Describes;
    if HasName(opts, n) {
      var k :| 0 <= k < |opts| && FullName(opts[k]) == n;
      DescribedName(all, from[k], opts[k]);
    }
    if HasName(all, n) {
      var j :| 0 <= j < |all| && FullName(all[j]) == n;
      var f := FirstMention(all, j);
      assert f in from;
      var k :| 0 <= k < |from| && from[k] == f;
      DescribedName(all, f, opts[k]);
    }
  }

  lemma GatheredUnique(all: seq<Opt>, opts: seq<Opt>, from: seq<nat>)
    requires Gathered(all, opts, from)
    ensures Unique(opts)
  {
    hide Describes;
    forall i, j | 0 <= i < j < |opts|
      ensures FullName(opts[i]) != FullName(opts[j])
    {
      DescribedName(all, from[i], opts[i]);
      DescribedName(all, from[j], opts[j]);
      assert from[j] in from && First(all, from[j]);
    }
  }

  /** A requirement that is for something else changes nothing. */
  lemma OthersDescribed(all: seq<Opt>, f: nat, o: Opt, req: Opt)
    requires f < |all| && Describes(all, f, o) && !(all[f].Pkg? && req.Pkg? && req.pkg == all[f].pkg)
    ensures Describes(all + [req], f, o)
  {
    var more := all + [req];
    if all[f].Pkg? {
      forall j | 0 <= j < |more|
        ensures Same(more, f, j) <==> j < |all| && Same(all, f, j)
        ensures j < |all| ==> more[j] == all[j]
      {
      }
      forall k
        ensures SomeComponent(more, f, k) <==> SomeComponent(all, f, k)
      {
        if SomeComponent(all, f, k) {
          var j :| 0 <= j < |all| && Same(all, f, j) && HasKey(all[j].components, k);
          assert Same(more, f, j) && HasKey(more[j].components, k);
        }
      }
      forall c | c in o.components
        ensures exists j :: 0 <= j < |more| && Same(more, f, j) && c in more[j].components
      {
        var j :| 0 <= j < |all| && Same(all, f, j) && c in all[j].components;
        assert Same(more, f, j) && c in more[j].components;
      }
      var j :| 0 <= j < |all| && Same(all, f, j) && o.default == all[j].default
               && forall i :: j < i < |all| ==> !Same(all, f, i);
      assert Same(more, f, j) && o.default == more[j].default;
    }
  }

  lemma MergedComponents(all: seq<Opt>, f: nat, o: Opt, req: Opt)
    requires f < |all| && all[f].Pkg? && Describes(all, f, o) && req.Pkg? && req.pkg == all[f].pkg
    ensures ComponentsGathered(all + [req], f, Union(o.components, req.components))
  {
    var more, merged := all + [req], Union(o.components, req.components);
    assert Same(more, f, |all|) && more[|all|] == req;
    forall k
      ensures HasKey(merged, k) <==> SomeComponent(more, f, k)
    {
      UnionKeys(o.components, req.components, k);
      hide Union, HasKey;
      if SomeComponent(all, f, k) {
        var j :| 0 <= j < |all| && Same(all, f, j) && HasKey(all[j].components, k);
        assert Same(more, f, j) && HasKey(more[j].components, k);
      }
      if SomeComponent(more, f, k) {
        var j :| 0 <= j < |more| && Same(more, f, j) && HasKey(more[j].components, k);
        if j < |all| {
          assert Same(all, f, j) && HasKey(all[j].components, k);
        }
      }
    }
    UnionHolds(o.components, req.components);
    hide Union, HasKey;
    forall c | c in merged
      ensures exists j :: 0 <= j < |more| && Same(more, f, j) && c in more[j].components
    {
      if c in o.components {
        var j :| 0 <= j < |all| && Same(all, f, j) && c in all[j].components;
        assert Same(more, f, j) && c in more[j].components;
      } else {
        assert c in more[|all|].components;
      }
    }
  }

  lemma MergedDescribed(all: seq<Opt>, f: nat, o: Opt, req: Opt)
    requires f < |all| && all[f].Pkg? && Describes(all, f, o) && req.Pkg? && req.pkg == all[f].pkg
    ensures Describes(all + [req], f, Merge(o, req))
  {
    MergedComponents(all, f, o, req);
    var more := all + [req];
    hide ComponentsGathered, Union;
    assert Same(more, f, |all|) && more[|all|] == req;
    assert LastDefault(more, f, req.default);
  }

  lemma NewDescribed(all: seq<Opt>, req: Opt)
    requires !HasName(all, FullName(req))
    ensures Describes(all + [req], |all|, req) && First(all + [req], |all|)
  {
    var more := all + [req];
    assert more[|all|] == req;
    forall i | 0 <= i < |all|
      ensures FullName(more[i]) != FullName(req)
    {
      assert more[i] == all[i];
    }
    if req.Pkg? {
      assert Same(more, |all|, |all|);
      assert LastDefault(more, |all|, req.default);
      forall k
        ensures HasKey(req.components, k) <==> SomeComponent(more, |all|, k)
      {
        if SomeComponent(more, |all|, k) {
          var j :| 0 <= j < |more| && Same(more, |all|, j) && HasKey(more[j].components, k);
          assert FullName(more[j]) == FullName(req);
        }
      }
    }
  }

  lemma FirstStays(all: seq<Opt>, req: Opt, j: nat)
    requires j < |all|
    ensures First(all + [req], j) <==> First(all, j)
  {
    var more := all + [req];
    assert forall i :: 0 <= i <= j ==> more[i] == all[i];
  }

  lemma LastIsFirst(all: seq<Opt>, req: Opt)
    ensures First(all + [req], |all|) <==> !HasName(all, FullName(req))
  {
    var more := all + [req];
    assert forall i :: 0 <= i < |all| ==> more[i] == all[i];
  }

  /** The option of a name is described by its first mention; this is it. */
  lemma TheOption(all: seq<Opt>, opts: seq<Opt>, from: seq<nat>, k: nat, req: Opt)
    requires Gathered(all, opts, from) && k < |opts| && FullName(opts[k]) == FullName(req)
    ensures forall l :: 0 <= l < |opts| && l != k ==> FullName(opts[l]) != FullName(req)
    ensures FullName(all[from[k]]) == FullName(req)
  {
    GatheredUnique(all, opts, from);
    hide Describes;
    DescribedName(all, from[k], opts[k]);
  }

  /** Adding a requirement gathers what it says. */
  lemma AddGathers(all: seq<Opt>, opts: seq<Opt>, from: seq<nat>, req: Opt) returns (places: seq<nat>)
    requires Gathered(all, opts, from)
    ensures Gathered(all + [req], AddRequirement(opts, req), places)
  {
    GatheredNames(all, opts, from, FullName(req));
    GatheredUnique(all, opts, from);
    if !HasName(opts, FullName(req)) {
      places := from + [|all|];
      NewDescribed(all, req);
      AppendGathers(all, opts, from, req);
    } else {
      places := from;
      var k :| 0 <= k < |opts| && FullName(opts[k]) == FullName(req);
      TheOption(all, opts, from, k, req);
      LastIsFirst(all, req);
      if req.Pkg? && opts[k].Pkg? {
        NoPkgIndex(opts, k);
        assert PkgIndex(opts, req.pkg) == Some(k);
        MergeGathers(all, opts, from, k, req);
      } else {
        assert !(req.Pkg? && PkgIndex(opts, req.pkg).Some?);
        ClashGathers(all, opts, from, k, req);
      }
    }
  }

  lemma AppendGathers(all: seq<Opt>, opts: seq<Opt>, from: seq<nat>, req: Opt)
    requires Gathered(all, opts, from) && !HasName(all, FullName(req))
    requires Describes(all + [req], |all|, req)
    ensures Gathered(all + [req], opts + [req], from + [|all|])
  {
    hide Describes;
    var more, longer, places := all + [req], opts + [req], from + [|all|];
    LastIsFirst(all, req);
    forall k | 0 <= k < |places|
      ensures places[k] < |more| && Describes(more, places[k], longer[k])
    {
      if k < |from| {
        assert FullName(all[from[k]]) != FullName(req);
        OthersDescribed(all, from[k], opts[k], req);
      }
    }
    forall j | 0 <= j < |more|
      ensures j in places <==> First(more, j)
    {
      if j < |all| {
        FirstStays(all, req, j);
      }
    }
  }

  lemma FirstsStay(all: seq<Opt>, from: seq<nat>, req: Opt)
    requires HasName(all, FullName(req)) && (forall k :: 0 <= k < |from| ==> from[k] < |all|)
    requires forall j :: 0 <= j < |all| ==> (j in from <==> First(all, j))
    ensures forall j :: 0 <= j < |all| + 1 ==> (j in from <==> First(all + [req], j))
  {
    LastIsFirst(all, req);
    forall j | 0 <= j < |all|
      ensures First(all + [req], j) <==> First(all, j)
    {
      FirstStays(all, req, j);
    }
  }

  lemma MergeGathers(all: seq<Opt>, opts: seq<Opt>, from: seq<nat>, k: nat, req: Opt)
    requires Gathered(all, opts, from) && k < |opts| && req.Pkg? && opts[k].Pkg? && FullName(opts[k]) == FullName(req)
    requires forall l :: 0 <= l < |opts| && l != k ==> FullName(opts[l]) != FullName(req)
    requires HasName(all, FullName(req))
    ensures Gathered(all + [req], opts[k := Merge(opts[k], req)], from)
  {
    var merged := opts[k := Merge(opts[k], req)];
    FirstsStay(all, from, req);
    hide Describes, Merge;
    forall l | 0 <= l < |from|
      ensures from[l] < |all| + 1 && Describes(all + [req], from[l], merged[l])
    {
      DescribedName(all, from[l], opts[l]);
      if l == k {
        MergedDescribed(all, from[k], opts[k], req);
      } else {
        OthersDescribed(all, from[l], opts[l], req);
      }
    }
  }

  lemma ClashGathers(all: seq<Opt>, opts: seq<Opt>, from: seq<nat>, k: nat, req: Opt)
    requires Gathered(all, opts, from) && k < |opts|
    requires !(req.Pkg? && opts[k].Pkg?) && FullName(opts[k]) == FullName(req)
    requires forall l :: 0 <= l < |opts| && l != k ==> FullName(opts[l]) != FullName(req)
    requires HasName(all, FullName(req))
    ensures Gathered(all + [req], opts, from)
  {
    FirstsStay(all, from, req);
    hide Describes;
    forall l | 0 <= l < |from|
      ensures from[l] < |all| + 1 && Describes(all + [req], from[l], opts[l])
    {
      DescribedName(all, from[l], opts[l]);
      OthersDescribed(all, from[l], opts[l], req);
    }
  }

  /** The options of a recipe are described by themselves. */
  lemma RecipeGathers(options: seq<Opt>) returns (from: seq<nat>)
    requires Unique(options)
    ensures Gathered(options, options, from)
  {
    from := seq(|options|, i requires 0 <= i < |options| => i);
    forall i | 0 <= i < |options|
      ensures Describes(options, i, options[i]) && i in from && First(options, i)
    {
      assert from[i] == i;
      OwnDescription(options, i);
    }
    hide Describes, First;
  }

  lemma OwnDescription(options: seq<Opt>, i: nat)
    requires Unique(options) && i < |options|
    ensures Describes(options, i, options[i]) && First(options, i)
  {
    if options[i].Pkg? {
      assert Same(options, i, i);
      forall j | 0 <= j < |options| && Same(options, i, j)
        ensures j == i
      {
        assert FullName(options[i]) == FullName(options[j]);
      }
      hide HasKey;
      assert ComponentsGathered(options, i, options[i].components);
    }
  }

  lemma {:induction false} VariantGathers(options: seq<Opt>, reqs: seq<Opt>) returns (from: seq<nat>)
    requires Unique(options)
    ensures Gathered(options + reqs, OptsForVariant(options, reqs), from)
    decreases |reqs|
  {
    if reqs == [] {
      from := RecipeGathers(options);
      assert options + reqs == options;
    } else {
      var init, last := reqs[..|reqs| - 1], reqs[|reqs| - 1];
      from := VariantGathers(options, init);
      hide Gathered;
      from := AddGathers(options + init, OptsForVariant(options, init), from, last);
      assert options + init + [last] == options + reqs;
    }
  }

  /**
    The options of a variant, for a recipe whose options have different names: one for each name, in
    the order of the first mention among the recipe's options and then the variant's requirements. A
    variable is what its first mention says, and a package has the name and value of its first mention.
   */
  lemma VariantOptions(options: seq<Opt>, reqs: seq<Opt>) returns (from: seq<nat>)
    requires Unique(options)
    ensures var all, opts := options + reqs, OptsForVariant(options, reqs);
            && |from| == |opts| && (forall k :: 0 <= k < |from| ==> from[k] < |all|)
            && (forall j, k :: 0 <= j < k < |from| ==> from[j] < from[k])
            && (forall j :: 0 <= j < |all| ==>
                  (j in from <==> forall i :: 0 <= i < j ==> FullName(all[i]) != FullName(all[j])))
            && (forall k :: 0 <= k < |opts| && all[from[k]].Var? ==> opts[k] == all[from[k]])
            && (forall k :: 0 <= k < |opts| && all[from[k]].Pkg? ==>
                  opts[k].Pkg? && opts[k].pkg == all[from[k]].pkg && opts[k].value == all[from[k]].value)
  {
    from := VariantGathers(options, reqs);
    var all, opts := options + reqs, OptsForVariant(options, reqs);
    hide OptsForVariant, ComponentsGathered, LastDefault, FullName;
    assert forall k :: 0 <= k < |opts| ==> Describes(all, from[k], opts[k]);
    assert forall j :: 0 <= j < |all| ==> (j in from <==> First(all, j));
  }

  /** Its components are those of all mentions of it in the recipe and the variant, and no others. */
  lemma VariantComponents(options: seq<Opt>, reqs: seq<Opt>, k: nat, key: string, c: (string, string))
    requires Unique(options) && k < |OptsForVariant(options, reqs)| && OptsForVariant(options, reqs)[k].Pkg?
    ensures var all, opt := options + reqs, OptsForVariant(options, reqs)[k];
            HasKey(opt.components, key) <==>
              exists j :: 0 <= j < |all| && all[j].Pkg? && all[j].pkg == opt.pkg && HasKey(all[j].components, key)
    ensures var all, opt := options + reqs, OptsForVariant(options, reqs)[k];
            c in opt.components ==>
              exists j :: 0 <= j < |all| && all[j].Pkg? && all[j].pkg == opt.pkg && c in all[j].components
  {
    var from := VariantGathers(options, reqs);
    var all, opt := options + reqs, OptsForVariant(options, reqs)[k];
    hide OptsForVariant, HasKey, LastDefault;
    assert Describes(all, from[k], opt);
    assert HasKey(opt.components, key) <==> SomeComponent(all, from[k], key);
    if j :| 0 <= j < |all| && all[j].Pkg? && all[j].pkg == opt.pkg && HasKey(all[j].components, key) {
      assert Same(all, from[k], j);
    }
    if c in opt.components {
      var j :| 0 <= j < |all| && Same(all, from[k], j) && c in all[j].components;
    }
  }

  /** Its default is that of the last mention. */
  lemma VariantDefault(options: seq<Opt>, reqs: seq<Opt>, k: nat) returns (j: nat)
    requires Unique(options) && k < |OptsForVariant(options, reqs)| && OptsForVariant(options, reqs)[k].Pkg?
    ensures var all, opt := options + reqs, OptsForVariant(options, reqs)[k];
            && j < |all| && all[j].Pkg? && all[j].pkg == opt.pkg && opt.default == all[j].default
            && forall i :: j < i < |all| ==> !(all[i].Pkg? && all[i].pkg == opt.pkg)
  {
    var from := VariantGathers(options, reqs);
    var all, opt := options + reqs, OptsForVariant(options, reqs)[k];
    hide OptsForVariant, ComponentsGathered;
    assert Describes(all, from[k], opt);
    var f := from[k];
    j :| 0 <= j < |all| && Same(all, f, j) && opt.default == all[j].default
         && forall i :: j < i < |all| ==> !Same(all, f, i);
    forall i | j < i < |all|
      ensures !(all[i].Pkg? && all[i].pkg == opt.pkg)
    {
      assert !Same(all, f, i);
    }
  }

  // ----- The value of an option -----

  lemma {:induction false} NamespaceEndMeans(name: string, i: nat)
    requires i <= |name|
    ensures var end := NamespaceEnd(name, i);
            && (end.None? <==> '.' !in name[i..])
            && (end.Some? ==> i <= end.value < |name| && name[end.value] == '.' && '.' !in name[i..end.value])
    decreases |name| - i
  {
    if i < |name| {
      NamespaceEndMeans(name, i + 1);
      assert name[i..] == [name[i]] + name[i + 1..];
      var end := NamespaceEnd(name, i + 1);
      if name[i] != '.' && end.Some? {
        assert name[i..end.value] == [name[i]] + name[i + 1..end.value];
      }
    }
  }

  /** What is given for an option without a namespace: a value for it in this package, or for any. */
  lemma GivenWithoutNamespace(given: map<string, string>, pkg: string, name: string)
    requires '.' !in name
    ensures var value := GivenValue(given, pkg, name);
            if pkg + "." + name in given then value == Some(given[pkg + "." + name])
            else if name in given then value == Some(given[name]) else value == None
  {
    NamespaceEndMeans(name, 0);
    assert name[0..] == name;
    assert pkg + "." + name == pkg + [DOT] + name;
  }

  /** And for one with a namespace: a value for it, or for what comes after the first dot. */
  lemma GivenWithNamespace(given: map<string, string>, pkg: string, space: string, base: string)
    requires '.' !in space
    ensures var name := space + "." + base;
            var value := GivenValue(given, pkg, name);
            if name in given then value == Some(given[name])
            else if base in given then value == Some(given[base]) else value == None
  {
    var name := space + "." + base;
    NamespaceEndMeans(name, 0);
    assert name[0..] == name && name[|space|] == '.';
    var end := NamespaceEnd(name, 0).value;
    assert forall i :: 0 <= i < end ==> name[i] == name[0..end][i] != '.';
    assert forall i :: 0 <= i < |space| ==> name[i] == space[i];
    assert end == |space|;
    assert name[|space| + 1..] == base;
  }

  /** What the recipe sets comes first, then what is given, then the default. */
  lemma ValueRules(r: Request, o: Opt)
    ensures var given := GivenValue(r.given, r.pkg, FullName(o));
            && (o.value.Some? && (o.Pkg? || o.value.value != "") ==> r.Value(o) == o.value.value)
            && (o.value.None? || (o.Var? && o.value.value == "") ==>
                  r.Value(o) == if given.Some? then given.value else o.default)
  {
  }

  /** The resolved options are sorted by name, and are all options with their values. */
  lemma ResolvedMeans(r: Request, opts: seq<Opt>, n: string, v: string)
    requires Unique(opts)
    ensures Sorted(Resolved(r, opts))
    ensures (n, v) in Resolved(r, opts) <==>
            exists i :: 0 <= i < |opts| && FullName(opts[i]) == n && r.Value(opts[i]) == v
  {
    ResolvedByName(r, opts);
    ByNameHolds(opts);
    MapHolds(Resolved(r, opts), n, v);
    hide Resolved, ByName, Sorted, ToMap;
    if n in ByName(opts) {
      var i :| 0 <= i < |opts| && FullName(opts[i]) == n;
    }
  }

  /** The packages are sorted by name, and are all package options with the names of their components. */
  lemma PackagesMean(opts: seq<Opt>, n: string, names: seq<string>)
    requires Unique(opts)
    ensures Sorted(Packages(opts))
    ensures (n, names) in Packages(opts) <==>
            exists i :: 0 <= i < |opts| && opts[i].Pkg? && opts[i].pkg == n && |names| == |opts[i].components|
                        && forall j :: 0 <= j < |names| ==> names[j] == opts[i].components[j].1
  {
    PackagesByName(opts);
    ByNameHolds(opts);
    MapHolds(Packages(opts), n, names);
    hide Packages, ByName, Sorted, ToMap;
    if (n, names) in Packages(opts) {
      var i :| 0 <= i < |opts| && FullName(opts[i]) == n;
      assert names == ComponentNames(opts[i]);
    }
    if i :| 0 <= i < |opts| && opts[i].Pkg? && opts[i].pkg == n && |names| == |opts[i].components|
            && forall j :: 0 <= j < |names| ==> names[j] == opts[i].components[j].1 {
      assert names == ComponentNames(opts[i]) && FullName(opts[i]) == n;
    }
  }

  // ----- The bytes -----

  lemma BytesOfOption(name: string, value: string)
    ensures OptionBytes([(name, value)]) == name + "=" + value + [0 as char]
  {
    assert [(name, value)][1..] == [];
    assert name + ['='] == name + "=";
  }

  lemma {:induction false} MoreOptions(a: seq<(string, string)>, b: seq<(string, string)>)
    ensures OptionBytes(a + b) == OptionBytes(a) + OptionBytes(b)
    decreases |a|
  {
    if a == [] {
      assert a + b == b;
    } else {
      MoreOptions(a[1..], b);
      assert (a + b)[1..] == a[1..] + b && (a + b)[0] == a[0];
    }
  }

  lemma BytesOfComponent(name: string)
    ensures ComponentBytes([name]) == name + ","
  {
    assert [name][1..] == [];
  }

  lemma {:induction false} MoreComponents(a: seq<string>, b: seq<string>)
    ensures ComponentBytes(a + b) == ComponentBytes(a) + ComponentBytes(b)
    decreases |a|
  {
    if a == [] {
      assert a + b == b;
    } else {
      MoreComponents(a[1..], b);
      assert (a + b)[1..] == a[1..] + b && (a + b)[0] == a[0];
    }
  }

  lemma BytesOfPackage(name: string, components: seq<string>)
    ensures PackageBytes([(name, components)])
            == if components == [] then "" else name + "=" + ComponentBytes(components) + [1 as char]
  {
    assert [(name, components)][1..] == [];
    assert name + ['='] == name + "=";
  }

  lemma {:induction false} MorePackages(a: seq<(string, seq<string>)>, b: seq<(string, seq<string>)>)
    ensures PackageBytes(a + b) == PackageBytes(a) + PackageBytes(b)
    decreases |a|
  {
    if a == [] {
      assert a + b == b;
    } else {
      MorePackages(a[1..], b);
      assert (a + b)[1..] == a[1..] + b && (a + b)[0] == a[0];
    }
  }

  /** A recipe with a package and a variable, built without any given value. */
  lemma ExampleBytes(valid: (Opt, string) -> bool)
    requires forall o, v :: valid(o, v)
    ensures Bytes(Request("x", map[], valid), [Pkg("q", [("r", "run")], "1", None), Var("a", "2", None)], [])
            == Some(("a=2" + [0 as char]) + ("q=1" + [0 as char]) + ("q=run," + [1 as char]))
  {
    var r := Request("x", map[], valid);
    var q, a := Pkg("q", [("r", "run")], "1", None), Var("a", "2", None);
    var none: seq<Opt> := [];
    assert [q, a][..1] == [q] && [q][..0] == none;
    assert r.Value(q) == "1" && r.Value(a) == "2";
    assert Resolved(r, none) == [] && Packages(none) == [];
    assert Resolved(r, [q]) == Put([], "q", "1") == [("q", "1")];
    assert Less("a", "q");
    assert Resolved(r, [q, a]) == [("a", "2")] + [("q", "1")];
    assert ComponentNames(q) == ["run"];
    assert Packages([q]) == Put([], "q", ["run"]) == [("q", ["run"])];
    assert Packages([q, a]) == [("q", ["run"])];
    MoreOptions([("a", "2")], [("q", "1")]);
    BytesOfOption("a", "2");
    BytesOfOption("q", "1");
    BytesOfPackage("q", ["run"]);
    BytesOfComponent("run");
    assert OptsForVariant([q, a], []) == [q, a] && AllValid(r, [q, a]);
    assert "a" + "=" + "2" == "a=2" && "q" + "=" + "1" == "q=1" && "q" + "=" + ("run" + ",") == "q=run,";
    var bytes := OptionBytes([("a", "2")] + [("q", "1")]) + PackageBytes([("q", ["run"])]);
    assert Bytes(r, [q, a], []) == Some(bytes);
    assert bytes == ("a=2" + [0 as char]) + ("q=1" + [0 as char]) + ("q=run," + [1 as char]);
  }
}
