/**
  When two builds of one recipe hash the same bytes: the names are those of the recipe, so only
  the values can differ (`build_digest` in `crates/spk-schema/src/build_spec.rs`).
 */
module BuildCollision {
  import opened Graph
  import opened Lexical
  import opened BuildDigest

  function Zip(names: seq<string>, values: seq<string>): seq<(string, string)>
    requires |names| == |values|
  {
    seq(|names|, i requires 0 <= i < |names| => (names[i], values[i]))
  }

  /** The bytes of options with these names and values. */
  function Named(names: seq<string>, values: seq<string>): string
    requires |names| == |values|
  {
    OptionBytes(Zip(names, values))
  }

  function Head(name: string, value: string): string { name + ['='] + value + [NUL] }

  lemma NamedStep(names: seq<string>, values: seq<string>)
    requires |names| == |values| && names != []
    ensures Named(names, values) == Head(names[0], values[0]) + Named(names[1..], values[1..])
  {
    assert Zip(names, values)[1..] == Zip(names[1..], values[1..]);
  }

  predicate CleanNames(names: seq<string>) {
    forall i :: 0 <= i < |names| ==> Free(names[i], '=') && Free(names[i], NUL)
  }

  /** How an option starts within a value: a NUL, its name and an equals sign. */
  function Start(name: string): string { [NUL] + name + ['='] }

  predicate OccursAt(text: string, part: string, k: nat) {
    k + |part| <= |text| && text[k..k + |part|] == part
  }

  predicate Contains(text: string, part: string) {
    exists k :: 0 <= k <= |text| && OccursAt(text, part, k)
  }

  /** The longer of two beginnings of one text goes on as the rest after the shorter one. */
  lemma GoesOn(a: string, s: string, b: string, t: string)
    requires a + s == b + t && |a| <= |b|
    ensures b == a + b[|a|..] && s == b[|a|..] + t
  {
    assert a == (a + s)[..|a|] == (b + t)[..|a|] == b[..|a|];
    assert s == (a + s)[|a|..] == (b + t)[|a|..];
  }

  /** A value holds the start of its own option or of the next one; the first option starts only once. */
  predicate Imitates(names: seq<string>, values: seq<string>)
    requires |names| == |values|
  {
    exists i :: 1 <= i < |names| && (Contains(values[i - 1], Start(names[i])) || Contains(values[i], Start(names[i])))
  }

  // ----- A value that imitates can be cut differently -----

  lemma {:induction false} NamedConcat(a: seq<string>, v: seq<string>, b: seq<string>, w: seq<string>)
    requires |a| == |v| && |b| == |w|
    ensures Named(a + b, v + w) == Named(a, v) + Named(b, w)
    decreases |a|
  {
    if a == [] {
      assert a + b == b && v + w == w;
    } else {
      NamedStep(a, v);
      NamedStep(a + b, v + w);
      assert (a + b)[1..] == a[1..] + b && (v + w)[1..] == v[1..] + w;
      NamedConcat(a[1..], v[1..], b, w);
    }
  }

  lemma NamedTwo(n: string, v: string, m: string, w: string)
    ensures Named([n, m], [v, w]) == Head(n, v) + Head(m, w)
  {
    NamedStep([n, m], [v, w]);
    assert [n, m][1..] == [m] && [v, w][1..] == [w];
    NamedStep([m], [w]);
    assert Named([m][1..], [w][1..]) == [];
  }

  /** The same bytes with the boundary between two options moved to the imitated start. */
  lemma MovedBoundary(n: string, m: string, x: string, y: string, z: string)
    ensures Head(n, x + Start(m) + y) + Head(m, z) == Head(n, x) + Head(m, y + Start(m) + z)
  {
    var all := n + ['='] + x + [NUL] + m + ['='] + y + [NUL] + m + ['='] + z + [NUL];
    assert Head(n, x + Start(m) + y) + Head(m, z) == all;
    assert Head(n, x) + Head(m, y + Start(m) + z) == all;
  }

  lemma CutOut(text: string, part: string) returns (x: string, y: string)
    requires Contains(text, part)
    ensures text == x + part + y
  {
    var k :| 0 <= k <= |text| && OccursAt(text, part, k);
    x, y := text[..k], text[k + |part|..];
  }

  /** Two neighbours take other values; the rest stays. */
  lemma Neighbours(names: seq<string>, values: seq<string>, i: nat, v: string, w: string)
    requires |names| == |values| && 1 <= i < |names|
    requires Head(names[i - 1], v) + Head(names[i], w) == Head(names[i - 1], values[i - 1]) + Head(names[i], values[i])
    ensures Named(names, values[i - 1 := v][i := w]) == Named(names, values)
  {
    var other := values[i - 1 := v][i := w];
    var a, two, b := names[..i - 1], [names[i - 1], names[i]], names[i + 1..];
    assert names == a + (two + b);
    assert values == values[..i - 1] + ([values[i - 1], values[i]] + values[i + 1..]);
    assert other == values[..i - 1] + ([v, w] + values[i + 1..]);
    NamedConcat(a, values[..i - 1], two + b, [values[i - 1], values[i]] + values[i + 1..]);
    NamedConcat(a, values[..i - 1], two + b, [v, w] + values[i + 1..]);
    NamedConcat(two, [values[i - 1], values[i]], b, values[i + 1..]);
    NamedConcat(two, [v, w], b, values[i + 1..]);
    NamedTwo(names[i - 1], values[i - 1], names[i], values[i]);
    NamedTwo(names[i - 1], v, names[i], w);
  }

  lemma ImitationCollides(names: seq<string>, values: seq<string>) returns (other: seq<string>)
    requires |names| == |values| && Imitates(names, values)
    ensures |other| == |values| && other != values && Named(names, other) == Named(names, values)
  {
    var i :| 1 <= i < |names| && (Contains(values[i - 1], Start(names[i])) || Contains(values[i], Start(names[i])));
    var n, m := names[i - 1], names[i];
    if Contains(values[i - 1], Start(m)) {
      var x, y := CutOut(values[i - 1], Start(m));
      MovedBoundary(n, m, x, y, values[i]);
      var w := y + Start(m) + values[i];
      Neighbours(names, values, i, x, w);
      other := values[i - 1 := x][i := w];
      assert |other[i]| > |values[i]|;
    } else {
      var x, y := CutOut(values[i], Start(m));
      MovedBoundary(n, m, values[i - 1], x, y);
      var v := values[i - 1] + Start(m) + x;
      Neighbours(names, values, i, v, y);
      other := values[i - 1 := v][i := y];
      assert |other[i]| < |values[i]|;
    }
  }

  // ----- Other values with the same bytes are due to an imitation -----

  /** The name and the equals sign that begin an option are free of NUL. */
  lemma FirstNul(name: string, value: string, rest: string, k: nat)
    requires Free(name, NUL) && k < |Head(name, value) + rest| && (Head(name, value) + rest)[k] == NUL
    ensures k >= |name| + 1
  {
    var text := Head(name, value) + rest;
    assert forall j :: 0 <= j < |name| ==> text[j] == name[j] && name[j] in name;
    assert text[|name|] == '=';
  }

  /**
    The options of `w` start behind those of `v` in the same text. Where they no longer do, a
    value of `v` holds the start of its own option.
   */
  lemma {:induction false} Overtaken(names: seq<string>, v: seq<string>, w: seq<string>, x: string) returns (i: nat)
    requires |names| == |v| == |w| && CleanNames(names)
    requires x != [] && x[|x| - 1] == NUL && Named(names, v) == x + Named(names, w)
    ensures i < |names| && Contains(v[i], Start(names[i]))
    decreases |names|
  {
    if names == [] {
      assert false;
    }
    NamedStep(names, v);
    NamedStep(names, w);
    var hv, hw := Head(names[0], v[0]), Head(names[0], w[0]);
    var tv, tw := Named(names[1..], v[1..]), Named(names[1..], w[1..]);
    var text := hv + tv;
    assert text == x + hw + tw;
    if |x| + |hw| <= |hv| {
      i := 0;
      StartsInside(names[0], v[0], w[0], x, tv, tw);
    } else {
      var y := (x + hw)[|hv|..];
      GoesOn(hv, tv, x + hw, tw);
      assert y[|y| - 1] == NUL;
      i := Overtaken(names[1..], v[1..], w[1..], y);
      i := i + 1;
    }
  }

  lemma StartsInside(name: string, v: string, w: string, x: string, tv: string, tw: string)
    requires Free(name, NUL) && x != [] && x[|x| - 1] == NUL
    requires Head(name, v) + tv == x + Head(name, w) + tw && |x| + |Head(name, w)| <= |Head(name, v)|
    ensures Contains(v, Start(name))
  {
    var text := Head(name, v) + tv;
    assert text[|x| - 1] == NUL;
    FirstNul(name, v, tv, |x| - 1);
    var k := |x| - 1 - (|name| + 1);
    assert v[k..k + |Start(name)|] == text[|x| - 1..|x| - 1 + |Start(name)|];
    assert text[|x| - 1..|x| - 1 + |Start(name)|] == Start(name);
    assert OccursAt(v, Start(name), k);
  }

  lemma ImitatesRest(names: seq<string>, values: seq<string>)
    requires |names| == |values| && names != [] && Imitates(names[1..], values[1..])
    ensures Imitates(names, values)
  {
    var i :| 1 <= i < |names[1..]| &&
      (Contains(values[1..][i - 1], Start(names[1..][i])) || Contains(values[1..][i], Start(names[1..][i])));
    assert Contains(values[i + 1 - 1], Start(names[i + 1])) || Contains(values[i + 1], Start(names[i + 1]));
  }

  /** The first value of `v` goes on where that of `w` ends: it holds the start of the next option. */
  lemma LongerFirst(names: seq<string>, v: seq<string>, w: seq<string>)
    requires |names| == |v| == |w| && CleanNames(names) && names != [] && |v[0]| > |w[0]|
    requires Named(names, v) == Named(names, w)
    ensures |names| > 1 && Contains(v[0], Start(names[1]))
  {
    NamedStep(names, v);
    NamedStep(names, w);
    var hv, hw := Head(names[0], v[0]), Head(names[0], w[0]);
    var tv, tw := Named(names[1..], v[1..]), Named(names[1..], w[1..]);
    var x := hv[|hw|..];
    GoesOn(hw, tw, hv, tv);
    assert x[|x| - 1] == NUL;
    if |names| == 1 {
      assert false;
    }
    NamedStep(names[1..], w[1..]);
    FirstNul(names[1], w[1], Named(names[1..][1..], w[1..][1..]), |x| - 1);
    assert x[..|names[1]| + 1] == tw[..|names[1]| + 1] == names[1] + ['='];
    assert v[0] + [NUL] == hv[|names[0]| + 1..] == (hw + x)[|names[0]| + 1..] == w[0] + [NUL] + x;
    HoldsStart(v[0], w[0], x, names[1]);
  }

  lemma HoldsStart(v: string, w: string, x: string, name: string)
    requires v + [NUL] == w + [NUL] + x && |x| >= |name| + 2 && x[..|name| + 1] == name + ['=']
    ensures Contains(v, Start(name))
  {
    assert v == (v + [NUL])[..|v|] == w + [NUL] + x[..|x| - 1];
    assert v[|w|..|w| + |Start(name)|] == [NUL] + x[..|name| + 1];
    assert OccursAt(v, Start(name), |w|);
  }

  lemma {:induction false} CollisionImitates(names: seq<string>, v: seq<string>, w: seq<string>)
    requires |names| == |v| == |w| && CleanNames(names) && v != w && Named(names, v) == Named(names, w)
    ensures Imitates(names, v)
    decreases |names|
  {
    NamedStep(names, v);
    NamedStep(names, w);
    var hv, hw := Head(names[0], v[0]), Head(names[0], w[0]);
    var tv, tw := Named(names[1..], v[1..]), Named(names[1..], w[1..]);
    if |v[0]| > |w[0]| {
      LongerFirst(names, v, w);
      assert Contains(v[1 - 1], Start(names[1]));
    } else if |v[0]| < |w[0]| {
      var x := hw[|hv|..];
      GoesOn(hv, tv, hw, tw);
      assert x[|x| - 1] == NUL;
      var i := Overtaken(names[1..], v[1..], w[1..], x);
      assert Contains(v[i + 1], Start(names[i + 1]));
    } else {
      assert hv == (hv + tv)[..|hv|] == (hw + tw)[..|hw|] == hw;
      assert v[0] == hv[|names[0]| + 1..|hv| - 1] == w[0];
      assert tv == (hv + tv)[|hv|..] == (hw + tw)[|hw|..] == tw;
      assert v == [v[0]] + v[1..] && w == [w[0]] + w[1..];
      CollisionImitates(names[1..], v[1..], w[1..]);
      ImitatesRest(names, v);
    }
  }

  /**
    The values of a recipe's options are the only ones with their bytes if and only if no value
    holds, after a NUL, the start of its own option or of the next one.
   */
  lemma OnlyValuesIff(names: seq<string>, values: seq<string>)
    requires |names| == |values| && CleanNames(names)
    ensures (forall other :: |other| == |names| && Named(names, other) == Named(names, values) ==> other == values)
            <==> !Imitates(names, values)
  {
    if Imitates(names, values) {
      var other := ImitationCollides(names, values);
    } else {
      forall other | |other| == |names| && Named(names, other) == Named(names, values)
        ensures other == values
      {
        if other != values {
          CollisionImitates(names, values, other);
        }
      }
    }
  }

  // ----- Builds of one recipe -----

  function NamesOf(list: seq<(string, string)>): seq<string> {
    seq(|list|, i requires 0 <= i < |list| => list[i].0)
  }

  function ValuesOf(list: seq<(string, string)>): seq<string> {
    seq(|list|, i requires 0 <= i < |list| => list[i].1)
  }

  lemma ZipBack(list: seq<(string, string)>)
    ensures Zip(NamesOf(list), ValuesOf(list)) == list
  {
  }

  function PutName(names: seq<string>, k: string): seq<string> {
    if names == [] || Less(k, names[0]) then [k] + names
    else if k == names[0] then names
    else [names[0]] + PutName(names[1..], k)
  }

  lemma NamesOfCons(p: (string, string), rest: seq<(string, string)>)
    ensures NamesOf([p] + rest) == [p.0] + NamesOf(rest)
  {
  }

  lemma {:induction false} NamesOfPut(list: seq<(string, string)>, k: string, v: string)
    ensures NamesOf(Put(list, k, v)) == PutName(NamesOf(list), k)
  {
    if list == [] {
      NamesOfCons((k, v), list);
    } else {
      hide NamesOf, Less;
      var first, rest := list[0], list[1..];
      assert list == [first] + rest;
      NamesOfCons(first, rest);
      assert NamesOf(list)[1..] == NamesOf(rest);
      NamesOfCons((k, v), list);
      NamesOfCons((k, v), rest);
      NamesOfCons(first, Put(rest, k, v));
      NamesOfPut(rest, k, v);
    }
  }

  /** The names of the resolved options are those of the recipe, whatever values are given. */
  lemma {:induction false} SameNames(r: Request, q: Request, opts: seq<Opt>)
    ensures NamesOf(Resolved(r, opts)) == NamesOf(Resolved(q, opts))
  {
    if opts != [] {
      var init, last := opts[..|opts| - 1], opts[|opts| - 1];
      SameNames(r, q, init);
      NamesOfPut(Resolved(r, init), FullName(last), r.Value(last));
      NamesOfPut(Resolved(q, init), FullName(last), q.Value(last));
    }
  }

  /**
    The bytes of a build whose values imitate no option determine every value, among all builds
    of the same recipe and variant requirements.
   */
  lemma BytesDetermineValues(r: Request, q: Request, options: seq<Opt>, reqs: seq<Opt>)
    requires Bytes(r, options, reqs).Some? && Bytes(r, options, reqs) == Bytes(q, options, reqs)
    requires var resolved := Resolved(r, OptsForVariant(options, reqs));
             CleanNames(NamesOf(resolved)) && !Imitates(NamesOf(resolved), ValuesOf(resolved))
    ensures Resolved(r, OptsForVariant(options, reqs)) == Resolved(q, OptsForVariant(options, reqs))
  {
    var opts := OptsForVariant(options, reqs);
    hide OptsForVariant, Resolved, PackageBytes, OptionBytes, Packages, NamesOf, ValuesOf, Imitates, CleanNames;
    SameNames(r, q, opts);
    SameBeginning(OptionBytes(Resolved(r, opts)), OptionBytes(Resolved(q, opts)), PackageBytes(Packages(opts)));
    SameLists(Resolved(r, opts), Resolved(q, opts));
  }

  lemma SameLists(a: seq<(string, string)>, b: seq<(string, string)>)
    requires NamesOf(a) == NamesOf(b) && OptionBytes(a) == OptionBytes(b)
    requires CleanNames(NamesOf(a)) && !Imitates(NamesOf(a), ValuesOf(a))
    ensures a == b
  {
    hide OptionBytes, CleanNames, Imitates;
    ZipBack(a);
    ZipBack(b);
    assert |ValuesOf(b)| == |NamesOf(b)| && |ValuesOf(a)| == |NamesOf(a)|;
    OnlyValuesIff(NamesOf(a), ValuesOf(a));
    assert Named(NamesOf(a), ValuesOf(b)) == Named(NamesOf(a), ValuesOf(a));
  }

  lemma SameBeginning(a: string, b: string, tail: string)
    requires a + tail == b + tail
    ensures a == b
  {
    assert |a| == |b|;
    assert a == (a + tail)[..|a|] == (b + tail)[..|b|] == b;
  }

  // ----- Recipes whose options take any value -----

  predicate Unset(o: Opt) {
    match o
    case Pkg(_, _, _, value) => value.None?
    case Var(_, _, value) => value.None? || value.value == ""
  }

  /**
    Every option can be given any value, independently of the others: none is set by the recipe, every
    value is valid, and no option has the name of another with the namespace of the package.
   */
  ghost predicate TakesAnyValue(r: Request, opts: seq<Opt>) {
    && (forall i :: 0 <= i < |opts| ==> Unset(opts[i]))
    && (forall i, v :: 0 <= i < |opts| ==> r.valid(opts[i], v))
    && (forall i, j :: 0 <= i < |opts| && 0 <= j < |opts| && NamespaceEnd(FullName(opts[i]), 0).None? ==>
          FullName(opts[j]) != r.pkg + [DOT] + FullName(opts[i]))
  }

  /** The values are given under the full names of the options and nothing else. */
  ghost predicate GivenByName(given: map<string, string>, opts: seq<Opt>) {
    forall n :: n in given <==> HasName(opts, n)
  }

  lemma ValueIsGiven(r: Request, opts: seq<Opt>, given: map<string, string>, i: nat)
    requires TakesAnyValue(r, opts) && GivenByName(given, opts) && i < |opts|
    ensures FullName(opts[i]) in given && r.(given := given).Value(opts[i]) == given[FullName(opts[i])]
  {
    var n := FullName(opts[i]);
    assert n in given;
    if NamespaceEnd(n, 0).None? {
      assert r.pkg + [DOT] + n !in given;
    }
  }

  lemma {:induction false} ResolvedIsGiven(r: Request, opts: seq<Opt>, given: map<string, string>)
    requires forall i :: 0 <= i < |opts| ==> FullName(opts[i]) in given && r.Value(opts[i]) == given[FullName(opts[i])]
    ensures forall p :: p in Resolved(r, opts) ==> p.0 in given && p.1 == given[p.0]
  {
    if opts != [] {
      var init, last := opts[..|opts| - 1], opts[|opts| - 1];
      ResolvedIsGiven(r, init, given);
      hide Put;
      PutKeys(Resolved(r, init), FullName(last), r.Value(last));
    }
  }

  lemma NameOfLast(opts: seq<Opt>, n: string)
    requires opts != []
    ensures HasName(opts, n) <==> HasName(opts[..|opts| - 1], n) || FullName(opts[|opts| - 1]) == n
  {
    hide FullName;
  }

  lemma {:induction false} ResolvedNames(r: Request, opts: seq<Opt>, n: string)
    ensures n in ToMap(Resolved(r, opts)) <==> HasName(opts, n)
  {
    if opts != [] {
      var init, last := opts[..|opts| - 1], opts[|opts| - 1];
      ResolvedNames(r, init, n);
      NameOfLast(opts, n);
      PutMap(Resolved(r, init), FullName(last), r.Value(last));
      hide HasName, Put, ToMap, FullName;
    }
  }

  /** The values that are listed with the names of a recipe, as values to be given. */
  ghost function Listed(names: seq<string>, values: seq<string>): (given: map<string, string>)
    requires |names| == |values| && forall i, j :: 0 <= i < j < |names| ==> names[i] != names[j]
    ensures forall n :: n in given <==> n in names
    ensures forall i :: 0 <= i < |names| ==> given[names[i]] == values[i]
  {
    map i | 0 <= i < |names| :: names[i] := values[i]
  }

  lemma NamesAreDistinct(r: Request, opts: seq<Opt>)
    ensures var names := NamesOf(Resolved(r, opts));
            && (forall i, j :: 0 <= i < j < |names| ==> names[i] != names[j])
            && (forall n :: n in names <==> HasName(opts, n))
  {
    var list := Resolved(r, opts);
    var names := NamesOf(list);
    ResolvedByName(r, opts);
    forall i, j | 0 <= i < j < |names|
      ensures names[i] != names[j]
    {
      LessIrreflexive(list[i].0);
    }
    hide Resolved, HasName;
    forall n
      ensures n in names <==> HasName(opts, n)
    {
      ResolvedNames(r, opts, n);
      MapKeys(list, n);
      if n in names {
        var i :| 0 <= i < |names| && names[i] == n;
        assert list[i].0 == n;
      }
      if i :| 0 <= i < |list| && list[i].0 == n {
        assert names[i] == n;
      }
    }
  }

  /** Any list of values for the names of such a recipe is what some given values are resolved to. */
  lemma AnyValuesResolve(r: Request, opts: seq<Opt>, values: seq<string>) returns (q: Request)
    requires TakesAnyValue(r, opts) && |values| == |Resolved(r, opts)|
    ensures q == r.(given := q.given) && AllValid(q, opts)
    ensures Resolved(q, opts) == Zip(NamesOf(Resolved(r, opts)), values)
  {
    var names := NamesOf(Resolved(r, opts));
    NamesAreDistinct(r, opts);
    var given := Listed(names, values);
    q := r.(given := given);
    forall i | 0 <= i < |opts|
      ensures FullName(opts[i]) in given && q.Value(opts[i]) == given[FullName(opts[i])]
    {
      ValueIsGiven(r, opts, given, i);
    }
    ResolvedIsGiven(q, opts, given);
    SameNames(r, q, opts);
    hide Resolved;
    ValuesByName(Resolved(q, opts), names, values, given);
  }

  lemma ValuesByName(list: seq<(string, string)>, names: seq<string>, values: seq<string>, given: map<string, string>)
    requires NamesOf(list) == names && |values| == |names|
    requires forall p :: p in list ==> p.0 in given && p.1 == given[p.0]
    requires forall i :: 0 <= i < |names| ==> names[i] in given && given[names[i]] == values[i]
    ensures list == Zip(names, values)
  {
    forall i | 0 <= i < |list|
      ensures list[i] == (names[i], values[i])
    {
      assert list[i] in list;
    }
  }

  /** All values that can be given for the recipe and give these bytes are resolved to the same options. */
  ghost predicate Determined(r: Request, options: seq<Opt>, reqs: seq<Opt>) {
    forall given :: Bytes(r.(given := given), options, reqs) == Bytes(r, options, reqs) ==>
      Resolved(r.(given := given), OptsForVariant(options, reqs)) == Resolved(r, OptsForVariant(options, reqs))
  }

  lemma ImitationIsNotDetermined(r: Request, options: seq<Opt>, reqs: seq<Opt>)
    requires TakesAnyValue(r, OptsForVariant(options, reqs))
    requires var resolved := Resolved(r, OptsForVariant(options, reqs)); Imitates(NamesOf(resolved), ValuesOf(resolved))
    ensures !Determined(r, options, reqs)
  {
    var opts := OptsForVariant(options, reqs);
    var resolved := Resolved(r, opts);
    var other := ImitationCollides(NamesOf(resolved), ValuesOf(resolved));
    ZipBack(resolved);
    var q := AnyValuesResolve(r, opts, other);
    hide OptsForVariant, Resolved, PackageBytes, OptionBytes, Packages, Imitates, TakesAnyValue;
    ValuesOfZip(NamesOf(resolved), other);
    assert AllValid(r, opts) by {
      AnyValueIsValid(r, opts);
    }
    assert Bytes(q, options, reqs) == Bytes(r, options, reqs);
  }

  lemma AnyValueIsValid(r: Request, opts: seq<Opt>)
    requires TakesAnyValue(r, opts)
    ensures AllValid(r, opts)
  {
  }

  lemma ValuesOfZip(names: seq<string>, values: seq<string>)
    requires |names| == |values|
    ensures ValuesOf(Zip(names, values)) == values
  {
  }

  /**
    Of a recipe whose options take any value, the bytes of a build determine every value, among all
    values that can be given, if and only if no value imitates an option.
   */
  lemma DeterminedIff(r: Request, options: seq<Opt>, reqs: seq<Opt>)
    requires TakesAnyValue(r, OptsForVariant(options, reqs))
    requires CleanNames(NamesOf(Resolved(r, OptsForVariant(options, reqs))))
    ensures var resolved := Resolved(r, OptsForVariant(options, reqs));
            Determined(r, options, reqs) <==> !Imitates(NamesOf(resolved), ValuesOf(resolved))
  {
    var opts := OptsForVariant(options, reqs);
    var resolved := Resolved(r, opts);
    AnyValueIsValid(r, opts);
    hide OptsForVariant, Resolved, PackageBytes, OptionBytes, Packages, Imitates, TakesAnyValue, CleanNames, NamesOf,
         ValuesOf;
    if Imitates(NamesOf(resolved), ValuesOf(resolved)) {
      ImitationIsNotDetermined(r, options, reqs);
    } else {
      forall given | Bytes(r.(given := given), options, reqs) == Bytes(r, options, reqs)
        ensures Resolved(r.(given := given), opts) == Resolved(r, opts)
      {
        BytesDetermineValues(r, r.(given := given), options, reqs);
      }
    }
  }

  /** Two variables that take the values given for them; every value is valid. */
  function TwoVars(): seq<Opt> { [Var("a", "", None), Var("b", "", None)] }

  function Giving(v: string, w: string): Request {
    Request("p", map["a" := v, "b" := w], (o: Opt, value: string) => true)
  }

  lemma TwoVarsResolved(v: string, w: string)
    ensures Resolved(Giving(v, w), TwoVars()) == [("a", v), ("b", w)]
    ensures AllValid(Giving(v, w), TwoVars()) && Packages(TwoVars()) == []
  {
    var r, opts := Giving(v, w), TwoVars();
    var none: seq<Opt> := [];
    assert opts[..1] == [opts[0]] && [opts[0]][..0] == none;
    assert NamespaceEnd("a", 0) == None && NamespaceEnd("b", 0) == None;
    assert |"p" + [DOT] + "a"| == 3 && |"p" + [DOT] + "b"| == 3;
    assert r.Value(opts[0]) == v && r.Value(opts[1]) == w;
    assert Resolved(r, none) == [] && Packages(none) == [];
    assert Resolved(r, [opts[0]]) == Put([], "a", v) == [("a", v)];
    assert !Less("b", "a") && [("a", v)][1..] == [];
    assert Put([("a", v)], "b", w) == [("a", v)] + Put([("a", v)][1..], "b", w);
    assert Packages([opts[0]]) == [];
  }

  /** One recipe, two sets of values, the same bytes. */
  lemma OneRecipeCollides(x: string, y: string, z: string)
    ensures var r, q := Giving(x + Start("b") + y, z), Giving(x, y + Start("b") + z);
            && Bytes(r, TwoVars(), []).Some? && Bytes(r, TwoVars(), []) == Bytes(q, TwoVars(), [])
            && Resolved(r, TwoVars()) != Resolved(q, TwoVars())
  {
    var v, w := x + Start("b") + y, y + Start("b") + z;
    TwoVarsResolved(v, z);
    TwoVarsResolved(x, w);
    MovedBoundary("a", "b", x, y, z);
    NamedTwo("a", v, "b", z);
    NamedTwo("a", x, "b", w);
    assert Zip(["a", "b"], [v, z]) == [("a", v), ("b", z)];
    assert Zip(["a", "b"], [x, w]) == [("a", x), ("b", w)];
    assert |v| != |x|;
  }
}
