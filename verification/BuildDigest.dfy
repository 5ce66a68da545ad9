/**
  The bytes hashed into a build id: `opts_for_variant`, `resolve_options_for_pkg_name` and
  `build_digest` in `crates/spk-schema/src/build_spec.rs`.

  Whether a value is valid for an option is a parameter. An ordered map or set is the list of
  its elements in order; the key of a component puts the reserved names first.
 */
module BuildDigest {
  import opened Graph
  import opened Lexical

  /** `components` are the names of the components in their order, each with its key. */
  datatype Opt =
    | Pkg(pkg: string, components: seq<(string, string)>, default: string, value: Option<string>)
    | Var(name: string, default: string, value: Option<string>)

  function FullName(o: Opt): string {
    match o
    case Pkg(pkg, _, _, _) => pkg
    case Var(name, _, _) => name
  }

  const DOT: char := '.'

  /** Where the namespace of an option name ends, if it has one. */
  function NamespaceEnd(name: string, i: nat): Option<nat>
    requires i <= |name|
    decreases |name| - i
  {
    if i == |name| then None else if name[i] == DOT then Some(i) else NamespaceEnd(name, i + 1)
  }

  function WithoutNamespace(name: string): string {
    var end := NamespaceEnd(name, 0);
    if end.Some? && end.value < |name| then name[end.value + 1..] else name
  }

  function Get(given: map<string, string>, name: string): Option<string> {
    if name in given then Some(given[name]) else None
  }

  function OrElse(a: Option<string>, b: Option<string>): Option<string> {
    if a.Some? then a else b
  }

  /** The value given for an option of package `pkg`. */
  function GivenValue(given: map<string, string>, pkg: string, name: string): Option<string> {
    if NamespaceEnd(name, 0).Some? then OrElse(Get(given, name), Get(given, WithoutNamespace(name)))
    else OrElse(Get(given, pkg + [DOT] + name), Get(given, name))
  }

  function ValueOf(o: Opt, given: Option<string>): string {
    match o
    case Pkg(_, _, default, value) =>
      if value.Some? then value.value else if given.Some? then given.value else default
    case Var(_, default, value) =>
      if value.Some? && value.value != "" then value.value else if given.Some? then given.value else default
  }

  // ----- The options of a variant -----

  predicate HasName(opts: seq<Opt>, name: string) {
    exists i :: 0 <= i < |opts| && FullName(opts[i]) == name
  }

  /** The last package option of that name. */
  function PkgIndex(opts: seq<Opt>, name: string): (k: Option<nat>)
    ensures k.Some? ==> k.value < |opts| && opts[k.value].Pkg? && opts[k.value].pkg == name
  {
    if opts == [] then None
    else if opts[|opts| - 1].Pkg? && opts[|opts| - 1].pkg == name then Some(|opts| - 1)
    else PkgIndex(opts[..|opts| - 1], name)
  }

  function Union(a: seq<(string, string)>, b: seq<(string, string)>): seq<(string, string)>
    decreases |b|
  {
    if b == [] then a else Union(Put(a, b[0].0, b[0].1), b[1..])
  }

  /** The components of both, and the default of the variant. */
  function Merge(o: Opt, req: Opt): Opt
    requires o.Pkg? && req.Pkg?
  {
    o.(components := Union(o.components, req.components), default := req.default)
  }

  function AddRequirement(opts: seq<Opt>, req: Opt): seq<Opt> {
    if !HasName(opts, FullName(req)) then opts + [req]
    else if req.Pkg? && PkgIndex(opts, req.pkg).Some? then
      var k := PkgIndex(opts, req.pkg).value;
      opts[k := Merge(opts[k], req)]
    else opts
  }

  function OptsForVariant(options: seq<Opt>, reqs: seq<Opt>): seq<Opt> {
    if reqs == [] then options
    else AddRequirement(OptsForVariant(options, reqs[..|reqs| - 1]), reqs[|reqs| - 1])
  }

  /** The sets that the loop keeps beside its list say which names and packages the list has. */
  ghost predicate Tracks(opts: seq<Opt>, known: set<string>, index: map<string, nat>) {
    && (forall n :: n in known <==> HasName(opts, n))
    && (forall n :: (n in index <==> PkgIndex(opts, n).Some?) && (n in index ==> PkgIndex(opts, n) == Some(index[n])))
  }

  lemma TracksAppend(opts: seq<Opt>, known: set<string>, index: map<string, nat>, o: Opt)
    requires Tracks(opts, known, index)
    ensures Tracks(opts + [o], known + {FullName(o)}, if o.Pkg? then index[o.pkg := |opts|] else index)
  {
    var longer := opts + [o];
    assert longer[..|opts|] == opts;
    forall n
      ensures HasName(longer, n) <==> HasName(opts, n) || n == FullName(o)
    {
      if HasName(opts, n) {
        var i :| 0 <= i < |opts| && FullName(opts[i]) == n;
        assert FullName(longer[i]) == n;
      }
      assert FullName(longer[|opts|]) == FullName(o);
    }
  }

  lemma {:induction false} PkgIndexOfUpdate(opts: seq<Opt>, k: nat, o: Opt, name: string)
    requires k < |opts| && opts[k].Pkg? && o.Pkg? && o.pkg == opts[k].pkg
    ensures PkgIndex(opts[k := o], name) == PkgIndex(opts, name)
  {
    var init := opts[..|opts| - 1];
    if k < |opts| - 1 {
      assert opts[k := o][..|opts| - 1] == init[k := o];
      PkgIndexOfUpdate(init, k, o, name);
    } else {
      assert opts[k := o][..|opts| - 1] == init;
    }
  }

  lemma TracksMerge(opts: seq<Opt>, known: set<string>, index: map<string, nat>, k: nat, req: Opt)
    requires Tracks(opts, known, index) && k < |opts| && opts[k].Pkg? && req.Pkg?
    ensures Tracks(opts[k := Merge(opts[k], req)], known, index)
  {
    var merged := opts[k := Merge(opts[k], req)];
    forall n
      ensures HasName(merged, n) <==> HasName(opts, n)
    {
      assert forall i :: 0 <= i < |opts| ==> FullName(merged[i]) == FullName(opts[i]);
    }
    forall n
      ensures PkgIndex(merged, n) == PkgIndex(opts, n)
    {
      PkgIndexOfUpdate(opts, k, Merge(opts[k], req), n);
    }
  }

  /** The loop over the additional requirements of a variant. */
  method ComputeOpts(options: seq<Opt>, reqs: seq<Opt>) returns (opts: seq<Opt>)
    ensures opts == OptsForVariant(options, reqs)
  {
    opts := [];
    var known: set<string>, index: map<string, nat> := {}, map[];
    for i := 0 to |options|
      invariant opts == options[..i] && Tracks(opts, known, index)
    {
      TracksAppend(opts, known, index, options[i]);
      known := known + {FullName(options[i])};
      if options[i].Pkg? {
        index := index[options[i].pkg := i];
      }
      opts := opts + [options[i]];
    }
    for i := 0 to |reqs|
      invariant opts == OptsForVariant(options, reqs[..i]) && Tracks(opts, known, index)
    {
      assert reqs[..i + 1][..i] == reqs[..i];
      var req := reqs[i];
      if FullName(req) !in known {
        TracksAppend(opts, known, index, req);
        known := known + {FullName(req)};
        if req.Pkg? {
          index := index[req.pkg := |opts|];
        }
        opts := opts + [req];
      } else if req.Pkg? && req.pkg in index {
        var k := index[req.pkg];
        TracksMerge(opts, known, index, k, req);
        opts := opts[k := Merge(opts[k], req)];
      }
    }
    assert reqs[..|reqs|] == reqs;
  }

  // ----- Resolved options and packages, in their order -----

  /** What the bytes depend on besides the options: the values given, and which values are valid. */
  datatype Request = Request(pkg: string, given: map<string, string>, valid: (Opt, string) -> bool) {
    function Value(o: Opt): string { ValueOf(o, GivenValue(given, pkg, FullName(o))) }
  }

  function Resolved(r: Request, opts: seq<Opt>): seq<(string, string)> {
    if opts == [] then []
    else
      var last := opts[|opts| - 1];
      Put(Resolved(r, opts[..|opts| - 1]), FullName(last), r.Value(last))
  }

  /** The package options by name, with the names of their components. */
  function Packages(opts: seq<Opt>): seq<(string, seq<string>)> {
    if opts == [] then []
    else
      var last, rest := opts[|opts| - 1], Packages(opts[..|opts| - 1]);
      if last.Pkg? then Put(rest, last.pkg, ComponentNames(last)) else rest
  }

  function ComponentNames(o: Opt): seq<string>
    requires o.Pkg?
  {
    seq(|o.components|, i requires 0 <= i < |o.components| => o.components[i].1)
  }

  predicate AllValid(r: Request, opts: seq<Opt>) {
    forall i :: 0 <= i < |opts| ==> r.valid(opts[i], r.Value(opts[i]))
  }

  // ----- The bytes -----

  const NUL: char := 0 as char
  const SOH: char := 1 as char

  function OptionBytes(options: seq<(string, string)>): string {
    if options == [] then []
    else options[0].0 + ['='] + options[0].1 + [NUL] + OptionBytes(options[1..])
  }

  function ComponentBytes(components: seq<string>): string {
    if components == [] then [] else components[0] + [','] + ComponentBytes(components[1..])
  }

  /** A package without components leaves no trace. */
  function PackageBytes(packages: seq<(string, seq<string>)>): string {
    if packages == [] then []
    else
      (if packages[0].1 == [] then [] else packages[0].0 + ['='] + ComponentBytes(packages[0].1) + [SOH]) +
      PackageBytes(packages[1..])
  }

  /** What is hashed for a build, unless some value is not valid. */
  function Bytes(r: Request, options: seq<Opt>, reqs: seq<Opt>): Option<string> {
    var opts := OptsForVariant(options, reqs);
    if AllValid(r, opts) then Some(OptionBytes(Resolved(r, opts)) + PackageBytes(Packages(opts))) else None
  }

  lemma OptionBytesAppend(options: seq<(string, string)>, o: (string, string))
    ensures OptionBytes(options + [o]) == OptionBytes(options) + (o.0 + ['='] + o.1 + [NUL])
  {
    if options == [] {
      assert (options + [o])[1..] == [];
    } else {
      OptionBytesAppend(options[1..], o);
      assert (options + [o])[1..] == options[1..] + [o];
    }
  }

  lemma ComponentBytesAppend(components: seq<string>, c: string)
    ensures ComponentBytes(components + [c]) == ComponentBytes(components) + (c + [','])
  {
    if components == [] {
      assert (components + [c])[1..] == [];
    } else {
      ComponentBytesAppend(components[1..], c);
      assert (components + [c])[1..] == components[1..] + [c];
    }
  }

  function OnePackage(p: (string, seq<string>)): string {
    if p.1 == [] then [] else p.0 + ['='] + ComponentBytes(p.1) + [SOH]
  }

  lemma PackageBytesFirst(packages: seq<(string, seq<string>)>)
    requires packages != []
    ensures PackageBytes(packages) == OnePackage(packages[0]) + PackageBytes(packages[1..])
  {
  }

  lemma PackageBytesAppend(packages: seq<(string, seq<string>)>, p: (string, seq<string>))
    ensures PackageBytes(packages + [p]) ==
            PackageBytes(packages) + (if p.1 == [] then [] else p.0 + ['='] + ComponentBytes(p.1) + [SOH])
  {
    if packages == [] {
      assert (packages + [p])[1..] == [];
    } else {
      PackageBytesAppend(packages[1..], p);
      assert (packages + [p])[1..] == packages[1..] + [p] && (packages + [p])[0] == packages[0];
      PackageBytesFirst(packages);
      PackageBytesFirst(packages + [p]);
      hide PackageBytes, ComponentBytes;
      ConcatAssociates(OnePackage(packages[0]), PackageBytes(packages[1..]), OnePackage(p));
    }
  }

  /** Feeding the hasher: a name, a separator, a value and a terminator for each option. */
  method FeedOptions(options: seq<(string, string)>) returns (fed: string)
    ensures fed == OptionBytes(options)
  {
    fed := [];
    for i := 0 to |options|
      invariant fed == OptionBytes(options[..i])
    {
      OptionBytesAppend(options[..i], options[i]);
      assert options[..i + 1] == options[..i] + [options[i]];
      fed := fed + (options[i].0 + ['='] + options[i].1 + [NUL]);
    }
    assert options[..|options|] == options;
  }

  method FeedPackages(packages: seq<(string, seq<string>)>) returns (fed: string)
    ensures fed == PackageBytes(packages)
  {
    fed := [];
    for i := 0 to |packages|
      invariant fed == PackageBytes(packages[..i])
    {
      PackageBytesAppend(packages[..i], packages[i]);
      assert packages[..i + 1] == packages[..i] + [packages[i]];
      if packages[i].1 != [] {
        var body := FeedComponents(packages[i].1);
        fed := fed + (packages[i].0 + ['='] + body + [SOH]);
      }
    }
    assert packages[..|packages|] == packages;
  }

  method FeedComponents(components: seq<string>) returns (fed: string)
    ensures fed == ComponentBytes(components)
  {
    fed := [];
    for i := 0 to |components|
      invariant fed == ComponentBytes(components[..i])
    {
      ComponentBytesAppend(components[..i], components[i]);
      assert components[..i + 1] == components[..i] + [components[i]];
      fed := fed + (components[i] + [',']);
    }
    assert components[..|components|] == components;
  }

  /** The loop that resolves the options; `ok` is false once a value is not valid. */
  method ResolveOptions(r: Request, opts: seq<Opt>)
    returns (ok: bool, resolved: seq<(string, string)>, packages: seq<(string, seq<string>)>)
    ensures ok <==> forall i :: 0 <= i < |opts| ==> r.valid(opts[i], r.Value(opts[i]))
    ensures ok ==> resolved == Resolved(r, opts) && packages == Packages(opts)
  {
    hide Put, ValueOf, GivenValue, ComponentNames;
    resolved, packages := [], [];
    for i := 0 to |opts|
      invariant resolved == Resolved(r, opts[..i])
      invariant packages == Packages(opts[..i])
      invariant forall j :: 0 <= j < i ==> r.valid(opts[j], r.Value(opts[j]))
    {
      assert opts[..i + 1][..i] == opts[..i];
      var value := r.Value(opts[i]);
      if !r.valid(opts[i], value) {
        return false, [], [];
      }
      resolved := Put(resolved, FullName(opts[i]), value);
      if opts[i].Pkg? {
        packages := Put(packages, opts[i].pkg, ComponentNames(opts[i]));
      }
    }
    assert opts[..|opts|] == opts;
    ok := true;
  }

  /** The whole computation up to the hash. */
  method HashedBytes(r: Request, options: seq<Opt>, reqs: seq<Opt>) returns (bytes: Option<string>)
    ensures bytes == Bytes(r, options, reqs)
  {
    var opts := ComputeOpts(options, reqs);
    var ok, resolved, packages := ResolveOptions(r, opts);
    if !ok {
      return None;
    }
    var first := FeedOptions(resolved);
    var second := FeedPackages(packages);
    bytes := Some(first + second);
  }

  // ----- Equal bytes, equal inputs -----

  predicate Free(s: string, c: char) { c !in s }

  /** Cut at the first separator. */
  lemma CutAt(a: string, x: string, b: string, y: string, sep: char)
    requires a + [sep] + x == b + [sep] + y && Free(a, sep) && Free(b, sep)
    ensures a == b && x == y
  {
    var left, right := a + [sep] + x, b + [sep] + y;
    assert left[|a|] == sep && right[|b|] == sep;
    assert forall i :: 0 <= i < |a| ==> left[i] == a[i] && a[i] in a;
    assert forall i :: 0 <= i < |b| ==> right[i] == b[i] && b[i] in b;
    assert |a| == |b|;
    assert left[..|a|] == a && right[..|b|] == b;
    assert left[|a| + 1..] == x && right[|b| + 1..] == y;
  }

  predicate CleanOption(o: (string, string)) {
    Free(o.0, '=') && Free(o.0, NUL) && Free(o.1, NUL)
  }

  predicate CleanPackage(p: (string, seq<string>)) {
    && Free(p.0, '=') && Free(p.0, NUL) && Free(p.0, SOH)
    && forall c :: c in p.1 ==> Free(c, ',') && Free(c, NUL) && Free(c, SOH)
  }

  predicate CleanOptions(os: seq<(string, string)>) {
    forall i :: 0 <= i < |os| ==> CleanOption(os[i])
  }

  predicate CleanPackages(ps: seq<(string, seq<string>)>) {
    forall i :: 0 <= i < |ps| ==> CleanPackage(ps[i])
  }

  lemma {:induction false} ComponentsFree(components: seq<string>, sep: char)
    requires sep != ',' && forall c :: c in components ==> Free(c, sep)
    ensures Free(ComponentBytes(components), sep)
  {
    if components != [] {
      ComponentsFree(components[1..], sep);
      assert components[0] in components;
    }
  }

  lemma {:induction false} PackagesFree(packages: seq<(string, seq<string>)>)
    requires CleanPackages(packages)
    ensures Free(PackageBytes(packages), NUL)
  {
    if packages != [] {
      PackagesFree(packages[1..]);
      assert CleanPackage(packages[0]);
      ComponentsFree(packages[0].1, NUL);
    }
  }

  lemma {:induction false} OptionsDecode(a: seq<(string, string)>, x: string, b: seq<(string, string)>, y: string)
    requires CleanOptions(a) && CleanOptions(b) && Free(x, NUL) && Free(y, NUL)
    requires OptionBytes(a) + x == OptionBytes(b) + y
    ensures a == b && x == y
    decreases |a| + |b|
  {
    if a == [] || b == [] {
      if a != [] {
        EndsWithNul(a, x, y);
      } else if b != [] {
        EndsWithNul(b, y, x);
      }
      assert OptionBytes([]) + x == x && OptionBytes([]) + y == y;
    } else {
      assert CleanOption(a[0]) && CleanOption(b[0]);
      var ea, eb := a[0].0 + ['='] + a[0].1, b[0].0 + ['='] + b[0].1;
      var ra, rb := OptionBytes(a[1..]) + x, OptionBytes(b[1..]) + y;
      assert OptionBytes(a) + x == ea + [NUL] + ra;
      assert OptionBytes(b) + y == eb + [NUL] + rb;
      CutAt(ea, ra, eb, rb, NUL);
      CutAt(a[0].0, a[0].1, b[0].0, b[0].1, '=');
      OptionsDecode(a[1..], x, b[1..], y);
      assert a == [a[0]] + a[1..] && b == [b[0]] + b[1..];
    }
  }

  /** Bytes with an option in them are not bytes of packages only. */
  lemma EndsWithNul(a: seq<(string, string)>, x: string, y: string)
    requires a != [] && Free(y, NUL)
    ensures OptionBytes(a) + x != y
  {
  }

  lemma {:induction false} ComponentsDecode(a: seq<string>, b: seq<string>)
    requires (forall c :: c in a ==> Free(c, ',')) && (forall c :: c in b ==> Free(c, ','))
    requires ComponentBytes(a) == ComponentBytes(b)
    ensures a == b
  {
    if a != [] && b != [] {
      assert a[0] in a && b[0] in b;
      CutAt(a[0], ComponentBytes(a[1..]), b[0], ComponentBytes(b[1..]), ',');
      ComponentsDecode(a[1..], b[1..]);
      assert a == [a[0]] + a[1..] && b == [b[0]] + b[1..];
    }
  }

  /** The packages that ask for components. */
  function WithComponents(packages: seq<(string, seq<string>)>): (result: seq<(string, seq<string>)>)
    ensures forall i :: 0 <= i < |result| ==> result[i].1 != []
    ensures CleanPackages(packages) ==> CleanPackages(result)
  {
    if packages == [] then []
    else (if packages[0].1 == [] then [] else [packages[0]]) + WithComponents(packages[1..])
  }

  lemma {:induction false} WithComponentsBytes(packages: seq<(string, seq<string>)>)
    ensures PackageBytes(WithComponents(packages)) == PackageBytes(packages)
  {
    if packages != [] {
      WithComponentsBytes(packages[1..]);
      var kept := WithComponents(packages);
      if packages[0].1 != [] {
        assert kept[1..] == WithComponents(packages[1..]);
      } else {
        assert kept == WithComponents(packages[1..]);
        assert PackageBytes(packages) == PackageBytes(packages[1..]);
      }
    }
  }

  lemma {:induction false} PackagesDecode(a: seq<(string, seq<string>)>, b: seq<(string, seq<string>)>)
    requires CleanPackages(a) && CleanPackages(b) && PackageBytes(a) == PackageBytes(b)
    requires forall i :: 0 <= i < |a| ==> a[i].1 != []
    requires forall i :: 0 <= i < |b| ==> b[i].1 != []
    ensures a == b
  {
    if a != [] && b != [] {
      assert CleanPackage(a[0]) && CleanPackage(b[0]);
      PackageBytesFirst(a);
      PackageBytesFirst(b);
      hide PackageBytes, ComponentBytes;
      OnePackageDecodes(a[0], PackageBytes(a[1..]), b[0], PackageBytes(b[1..]));
      PackagesDecode(a[1..], b[1..]);
      assert a == [a[0]] + a[1..] && b == [b[0]] + b[1..];
    }
  }

  lemma OnePackageDecodes(a: (string, seq<string>), x: string, b: (string, seq<string>), y: string)
    requires CleanPackage(a) && CleanPackage(b) && a.1 != [] && b.1 != [] && OnePackage(a) + x == OnePackage(b) + y
    ensures a == b && x == y
  {
    hide ComponentBytes;
    var ca, cb := ComponentBytes(a.1), ComponentBytes(b.1);
    ComponentsFree(a.1, SOH);
    ComponentsFree(b.1, SOH);
    assert OnePackage(a) + x == a.0 + ['='] + ca + [SOH] + x && OnePackage(b) + y == b.0 + ['='] + cb + [SOH] + y;
    CutAt(a.0 + ['='] + ca, x, b.0 + ['='] + cb, y, SOH);
    CutAt(a.0, ca, b.0, cb, '=');
    ComponentsDecode(a.1, b.1);
  }

  /**
    Bytes are equal exactly when the resolved options and the packages with components are, as
    long as values are free of NUL and names are free of the separators.
   */
  lemma EqualBytesEqualInputs(oa: seq<(string, string)>, pa: seq<(string, seq<string>)>,
                              ob: seq<(string, string)>, pb: seq<(string, seq<string>)>)
    requires CleanOptions(oa) && CleanOptions(ob) && CleanPackages(pa) && CleanPackages(pb)
    ensures OptionBytes(oa) + PackageBytes(pa) == OptionBytes(ob) + PackageBytes(pb)
            <==> oa == ob && WithComponents(pa) == WithComponents(pb)
  {
    WithComponentsBytes(pa);
    WithComponentsBytes(pb);
    if OptionBytes(oa) + PackageBytes(pa) == OptionBytes(ob) + PackageBytes(pb) {
      PackagesFree(pa);
      PackagesFree(pb);
      OptionsDecode(oa, PackageBytes(pa), ob, PackageBytes(pb));
      PackagesDecode(WithComponents(pa), WithComponents(pb));
    }
  }

  /** What is hashed for a build is free of the separators wherever they would be ambiguous. */
  predicate CleanBuild(r: Request, opts: seq<Opt>) {
    CleanOptions(Resolved(r, opts)) && CleanPackages(Packages(opts))
  }

  /** Two builds hash the same bytes exactly when they agree on every option and component. */
  lemma BuildsAgree(r: Request, options: seq<Opt>, reqs: seq<Opt>, q: Request, others: seq<Opt>, extra: seq<Opt>)
    requires Bytes(r, options, reqs).Some? && CleanBuild(r, OptsForVariant(options, reqs))
    requires Bytes(q, others, extra).Some? && CleanBuild(q, OptsForVariant(others, extra))
    ensures var a, b := OptsForVariant(options, reqs), OptsForVariant(others, extra);
            Bytes(r, options, reqs) == Bytes(q, others, extra)
            <==> Resolved(r, a) == Resolved(q, b) && WithComponents(Packages(a)) == WithComponents(Packages(b))
  {
    var a, b := OptsForVariant(options, reqs), OptsForVariant(others, extra);
    EqualBytesEqualInputs(Resolved(r, a), Packages(a), Resolved(q, b), Packages(b));
  }

  /** A NUL in a value can imitate another option. */
  lemma NulInValueCollides(n: string, v: string, m: string, w: string)
    ensures OptionBytes([(n, v + [NUL] + m + ['='] + w)]) == OptionBytes([(n, v), (m, w)])
  {
    assert [(n, v), (m, w)][1..] == [(m, w)];
    assert [(m, w)][1..] == [];
    assert [(n, v + [NUL] + m + ['='] + w)][1..] == [];
  }

  // ----- The order of the recipe's options does not matter -----

  /** No two options of a recipe have the same name; reading a recipe rejects any other. */
  predicate Unique(opts: seq<Opt>) {
    forall i, j :: 0 <= i < j < |opts| ==> FullName(opts[i]) != FullName(opts[j])
  }

  function ByName(opts: seq<Opt>): map<string, Opt> {
    if opts == [] then map[] else ByName(opts[..|opts| - 1])[FullName(opts[|opts| - 1]) := opts[|opts| - 1]]
  }

  /** What a requirement does to the options by name. */
  function AddByName(m: map<string, Opt>, req: Opt): map<string, Opt> {
    var name := FullName(req);
    if name !in m then m[name := req]
    else if req.Pkg? && m[name].Pkg? then m[name := Merge(m[name], req)]
    else m
  }

  lemma {:induction false} ByNameHolds(opts: seq<Opt>)
    requires Unique(opts)
    ensures forall i :: 0 <= i < |opts| ==>
              FullName(opts[i]) in ByName(opts) && ByName(opts)[FullName(opts[i])] == opts[i]
    ensures forall n :: n in ByName(opts) ==> HasName(opts, n)
  {
    if opts != [] {
      var init := opts[..|opts| - 1];
      ByNameHolds(init);
      forall n | n in ByName(opts)
        ensures HasName(opts, n)
      {
        if n == FullName(opts[|opts| - 1]) {
          assert FullName(opts[|opts| - 1]) == n;
        } else {
          assert HasName(init, n);
          var i :| 0 <= i < |init| && FullName(init[i]) == n;
          assert FullName(opts[i]) == n;
        }
      }
    }
  }

  /** Two lists with the same options have the same options by name. */
  lemma SameByName(a: seq<Opt>, b: seq<Opt>)
    requires Unique(a) && Unique(b)
    requires (forall o :: o in a ==> o in b) && (forall o :: o in b ==> o in a)
    ensures ByName(a) == ByName(b)
  {
    ByNameHolds(a);
    ByNameHolds(b);
    forall n | n in ByName(a)
      ensures n in ByName(b) && ByName(b)[n] == ByName(a)[n]
    {
      var i :| 0 <= i < |a| && FullName(a[i]) == n;
      assert a[i] in b;
    }
    forall n | n in ByName(b)
      ensures n in ByName(a)
    {
      var i :| 0 <= i < |b| && FullName(b[i]) == n;
      assert b[i] in a;
    }
  }

  lemma {:induction false} ByNameOfUpdate(opts: seq<Opt>, k: nat, o: Opt)
    requires Unique(opts) && k < |opts| && FullName(o) == FullName(opts[k])
    ensures ByName(opts[k := o]) == ByName(opts)[FullName(o) := o]
  {
    var init := opts[..|opts| - 1];
    if k < |opts| - 1 {
      assert opts[k := o][..|opts| - 1] == init[k := o];
      ByNameOfUpdate(init, k, o);
    } else {
      assert opts[k := o][..|opts| - 1] == init;
    }
  }

  lemma {:induction false} NoPkgIndex(opts: seq<Opt>, i: nat)
    requires i < |opts| && opts[i].Pkg?
    ensures PkgIndex(opts, opts[i].pkg).Some?
  {
    if i < |opts| - 1 {
      NoPkgIndex(opts[..|opts| - 1], i);
    }
  }

  lemma AppendByName(opts: seq<Opt>, o: Opt)
    requires Unique(opts) && !HasName(opts, FullName(o))
    ensures Unique(opts + [o]) && ByName(opts + [o]) == ByName(opts)[FullName(o) := o]
    ensures FullName(o) !in ByName(opts)
  {
  }

  lemma MergeByName(opts: seq<Opt>, i: nat, req: Opt)
    requires Unique(opts) && i < |opts| && opts[i].Pkg? && req.Pkg? && FullName(opts[i]) == req.pkg
    ensures PkgIndex(opts, req.pkg) == Some(i)
    ensures FullName(req) in ByName(opts) && ByName(opts)[FullName(req)] == opts[i]
    ensures var merged := opts[i := Merge(opts[i], req)];
            Unique(merged) && ByName(merged) == ByName(opts)[FullName(req) := Merge(opts[i], req)]
  {
    NoPkgIndex(opts, i);
    var k := PkgIndex(opts, req.pkg).value;
    assert FullName(opts[k]) == FullName(opts[i]);
    assert k == i;
    ByNameHolds(opts);
    ByNameOfUpdate(opts, i, Merge(opts[i], req));
    var merged := opts[i := Merge(opts[i], req)];
    assert forall j :: 0 <= j < |opts| ==> FullName(merged[j]) == FullName(opts[j]);
  }

  lemma AddRequirementByName(opts: seq<Opt>, req: Opt)
    requires Unique(opts)
    ensures Unique(AddRequirement(opts, req))
    ensures ByName(AddRequirement(opts, req)) == AddByName(ByName(opts), req)
  {
    hide ByName, Unique, PkgIndex, Merge;
    if !HasName(opts, FullName(req)) {
      AppendByName(opts, req);
    } else {
      var i :| 0 <= i < |opts| && FullName(opts[i]) == FullName(req);
      if req.Pkg? && opts[i].Pkg? {
        MergeByName(opts, i, req);
      } else {
        ClashByName(opts, i, req);
      }
    }
  }

  /** A requirement whose name is taken by an option of another kind, or by a variable, is dropped. */
  lemma ClashByName(opts: seq<Opt>, i: nat, req: Opt)
    requires Unique(opts) && i < |opts| && FullName(opts[i]) == FullName(req) && !(req.Pkg? && opts[i].Pkg?)
    ensures AddRequirement(opts, req) == opts && AddByName(ByName(opts), req) == ByName(opts)
  {
    ByNameHolds(opts);
  }

  lemma {:induction false} OptsByName(a: seq<Opt>, b: seq<Opt>, reqs: seq<Opt>)
    requires Unique(a) && Unique(b) && ByName(a) == ByName(b)
    ensures Unique(OptsForVariant(a, reqs)) && Unique(OptsForVariant(b, reqs))
    ensures ByName(OptsForVariant(a, reqs)) == ByName(OptsForVariant(b, reqs))
  {
    if reqs != [] {
      OptsByName(a, b, reqs[..|reqs| - 1]);
      AddRequirementByName(OptsForVariant(a, reqs[..|reqs| - 1]), reqs[|reqs| - 1]);
      AddRequirementByName(OptsForVariant(b, reqs[..|reqs| - 1]), reqs[|reqs| - 1]);
    }
  }

  lemma {:induction false} ResolvedByName(r: Request, opts: seq<Opt>)
    ensures Sorted(Resolved(r, opts))
    ensures ToMap(Resolved(r, opts)) == map n | n in ByName(opts) :: r.Value(ByName(opts)[n])
  {
    if opts != [] {
      var init, last := opts[..|opts| - 1], opts[|opts| - 1];
      ResolvedByName(r, init);
      PutSorted(Resolved(r, init), FullName(last), r.Value(last));
      PutMap(Resolved(r, init), FullName(last), r.Value(last));
    }
  }

  function PackageMap(m: map<string, Opt>): map<string, seq<string>> {
    map n | n in m && m[n].Pkg? :: ComponentNames(m[n])
  }

  lemma PackageMapNext(m: map<string, Opt>, o: Opt)
    requires FullName(o) !in m
    ensures PackageMap(m[FullName(o) := o])
            == if o.Pkg? then PackageMap(m)[o.pkg := ComponentNames(o)] else PackageMap(m)
  {
    hide ComponentNames;
  }

  lemma {:induction false} PackagesByName(opts: seq<Opt>)
    requires Unique(opts)
    ensures Sorted(Packages(opts))
    ensures ToMap(Packages(opts)) == PackageMap(ByName(opts))
  {
    if opts != [] {
      var init, last := opts[..|opts| - 1], opts[|opts| - 1];
      PackagesByName(init);
      ByNameHolds(init);
      assert FullName(last) !in ByName(init);
      hide Unique;
      PackageMapNext(ByName(init), last);
      hide PackageMap, Sorted, ToMap, Put;
      if last.Pkg? {
        PutSorted(Packages(init), last.pkg, ComponentNames(last));
        PutMap(Packages(init), last.pkg, ComponentNames(last));
      }
    }
  }

  lemma SameValidity(r: Request, a: seq<Opt>, b: seq<Opt>)
    requires Unique(a) && Unique(b) && ByName(a) == ByName(b) && AllValid(r, a)
    ensures AllValid(r, b)
  {
    ByNameHolds(a);
    ByNameHolds(b);
    forall i | 0 <= i < |b|
      ensures r.valid(b[i], r.Value(b[i]))
    {
      assert FullName(b[i]) in ByName(a);
      var j :| 0 <= j < |a| && FullName(a[j]) == FullName(b[i]);
      assert a[j] == b[i];
    }
  }

  /** Reordering the uniquely named options of a recipe leaves the bytes unchanged. */
  lemma ReorderingKeepsBytes(r: Request, a: seq<Opt>, b: seq<Opt>, reqs: seq<Opt>)
    requires Unique(a) && Unique(b)
    requires (forall o :: o in a ==> o in b) && (forall o :: o in b ==> o in a)
    ensures Bytes(r, a, reqs) == Bytes(r, b, reqs)
  {
    SameByName(a, b);
    OptsByName(a, b, reqs);
    var oa, ob := OptsForVariant(a, reqs), OptsForVariant(b, reqs);
    ResolvedByName(r, oa);
    ResolvedByName(r, ob);
    SortedUnique(Resolved(r, oa), Resolved(r, ob));
    PackagesByName(oa);
    PackagesByName(ob);
    SortedUnique(Packages(oa), Packages(ob));
    if AllValid(r, oa) {
      SameValidity(r, oa, ob);
    }
    if AllValid(r, ob) {
      SameValidity(r, ob, oa);
    }
  }
}
