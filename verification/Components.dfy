/**
  The components of a package, `crates/spk-schema/src/component_spec_list.rs`: accepting a list
  of component definitions, and closing a request under their `uses`.
 */
module Components {
  import opened Graph
  import Lexical

  datatype Component = All | Build | Run | Source | Named(name: string)

  /** A definition; `remaining` says that its files are those left over by earlier ones. */
  datatype Spec = Spec(name: Component, uses: seq<Component>, remaining: bool)

  type Index = map<Component, Spec>

  /** The definitions by name; a later one replaces an earlier one. */
  function ByName(list: seq<Spec>): Index {
    if list == [] then map[] else ByName(list[..|list| - 1])[list[|list| - 1].name := list[|list| - 1]]
  }

  predicate UsedBy(index: Index, c: Component, needed: Component) {
    (c.All? && needed in index) || (c in index && needed in index[c].uses)
  }

  /** The set needs nothing that it does not have. */
  ghost predicate ClosedUnderUses(index: Index, s: set<Component>) {
    forall c, needed :: c in s && UsedBy(index, c, needed) ==> needed in s
  }

  ghost predicate Answers(index: Index, requests: seq<Component>, s: set<Component>) {
    (forall c :: c in requests ==> c in s) && ClosedUnderUses(index, s)
  }

  /** The set answers the requests, and is part of every set that does. */
  ghost predicate LeastClosed(index: Index, requests: seq<Component>, s: set<Component>) {
    Answers(index, requests, s) && forall other :: Answers(index, requests, other) ==> s <= other
  }

  /** Everything that a search can meet. */
  function Universe(index: Index, requests: set<Component>): set<Component> {
    requests + index.Keys + set c, u | c in index && u in index[c].uses :: u
  }

  method Listing(s: set<Component>) returns (list: seq<Component>)
    ensures forall c :: c in list <==> c in s
  {
    list := [];
    var todo := s;
    while todo != {}
      invariant todo <= s
      invariant forall c :: c in list <==> c in s && c !in todo
    {
      var c :| c in todo;
      list := list + [c];
      todo := todo - {c};
    }
  }

  /** What the search keeps: it stays within every closed set, and misses nothing needed so far. */
  ghost predicate SearchInv(index: Index, requests: seq<Component>, toVisit: seq<Component>, visited: set<Component>) {
    && (forall c :: c in requests ==> c in visited || c in toVisit)
    && (forall c, needed :: c in visited && UsedBy(index, c, needed) ==> needed in visited || needed in toVisit)
    && (forall s :: Answers(index, requests, s) ==> visited <= s && forall c :: c in toVisit ==> c in s)
    && (forall c :: c in toVisit ==> c in Universe(index, set r | r in requests))
  }

  lemma VisitKeeps(index: Index, requests: seq<Component>, rest: seq<Component>, c: Component,
                   visited: set<Component>, more: seq<Component>)
    requires SearchInv(index, requests, rest + [c], visited)
    requires forall needed :: needed in more <==> UsedBy(index, c, needed)
    ensures SearchInv(index, requests, rest + more, visited + {c})
  {
    var universe := Universe(index, set r | r in requests);
    assert c in rest + [c];
    forall x | x in rest + more
      ensures x in universe
    {
      if x in more {
        assert UsedBy(index, c, x);
      } else {
        assert x in rest + [c];
      }
    }
    assert forall x :: x in rest + [c] ==> x in rest + more || x in visited + {c};
  }

  lemma SkipKeeps(index: Index, requests: seq<Component>, rest: seq<Component>, c: Component, visited: set<Component>)
    requires SearchInv(index, requests, rest + [c], visited) && c in visited
    ensures SearchInv(index, requests, rest, visited)
  {
    assert forall x :: x in rest ==> x in rest + [c];
  }

  lemma NextIsNew(index: Index, requests: seq<Component>, toVisit: seq<Component>, visited: set<Component>,
                  c: Component)
    requires SearchInv(index, requests, toVisit, visited) && c in toVisit && c !in visited
    ensures var universe := Universe(index, set r | r in requests);
            |universe - (visited + {c})| < |universe - visited|
  {
    var universe := Universe(index, set r | r in requests);
    assert universe - visited == (universe - (visited + {c})) + {c};
  }

  lemma SearchEnds(index: Index, requests: seq<Component>, visited: set<Component>)
    requires SearchInv(index, requests, [], visited)
    ensures LeastClosed(index, requests, visited)
  {
  }

  lemma SearchStarts(index: Index, requests: seq<Component>)
    ensures SearchInv(index, requests, requests, {})
  {
  }

  /**
    The search ends, and visits the least set that holds the requests and is closed under
    `uses`, a request for all components needing every one of them; `All` itself is dropped.
   */
  method ResolveUses(list: seq<Spec>, requests: seq<Component>)
    returns (result: set<Component>, ghost full: set<Component>)
    ensures LeastClosed(ByName(list), requests, full) && result == full - {All}
    // what was requested, what those found use by their last definition, and with `All` every name
    ensures forall c :: c in requests ==> c in full
    ensures forall i, u :: 0 <= i < |list| && list[i].name in full && u in list[i].uses ==>
              u in full || exists j :: i < j < |list| && list[j].name == list[i].name
    ensures All in full ==> forall i :: 0 <= i < |list| ==> list[i].name in full
    // and nothing else
    ensures forall c :: c in full ==>
              || c in requests
              || (exists i :: 0 <= i < |list| && list[i].name in full && c in list[i].uses)
              || (All in full && exists i :: 0 <= i < |list| && list[i].name == c)
  {
    var index := ByName(list);
    var toVisit, visited := requests, {};
    SearchStarts(index, requests);
    hide SearchInv, LeastClosed, Universe, ByName;
    while toVisit != []
      invariant SearchInv(index, requests, toVisit, visited)
      decreases |Universe(index, set r | r in requests) - visited|, |toVisit|
    {
      var c, rest := toVisit[|toVisit| - 1], toVisit[..|toVisit| - 1];
      assert toVisit == rest + [c];
      if c in visited {
        SkipKeeps(index, requests, rest, c, visited);
        toVisit := rest;
        continue;
      }
      NextIsNew(index, requests, toVisit, visited, c);
      var more: seq<Component> := [];
      if c.All? {
        more := Listing(index.Keys);
      }
      if c in index {
        more := more + index[c].uses;
      }
      VisitKeeps(index, requests, rest, c, visited, more);
      toVisit, visited := rest + more, visited + {c};
    }
    SearchEnds(index, requests, visited);
    LeastMeans(list, requests, visited);
    result, full := visited - {All}, visited;
  }

  /** What the index has of a name is its last definition. */
  lemma {:induction false} LastIsIndexed(list: seq<Spec>, i: nat)
    requires i < |list|
    ensures list[i].name in ByName(list)
    ensures (forall j :: i < j < |list| ==> list[j].name != list[i].name) ==> ByName(list)[list[i].name] == list[i]
  {
    var init := list[..|list| - 1];
    if i < |init| {
      LastIsIndexed(init, i);
      assert init[i] == list[i] && forall j :: i < j < |init| ==> init[j] == list[j];
    }
  }

  lemma LeastHolds(list: seq<Spec>, requests: seq<Component>, full: set<Component>)
    requires Answers(ByName(list), requests, full)
    ensures forall i, u :: 0 <= i < |list| && list[i].name in full && u in list[i].uses ==>
              u in full || exists j :: i < j < |list| && list[j].name == list[i].name
    ensures All in full ==> forall i :: 0 <= i < |list| ==> list[i].name in full
  {
    hide ByName;
    forall i | 0 <= i < |list|
      ensures All in full ==> list[i].name in full
      ensures list[i].name in full && (forall j :: i < j < |list| ==> list[j].name != list[i].name) ==>
                forall u :: u in list[i].uses ==> u in full
    {
      LastIsIndexed(list, i);
      assert All in full ==> UsedBy(ByName(list), All, list[i].name);
      if list[i].name in full && (forall j :: i < j < |list| ==> list[j].name != list[i].name) {
        assert forall u :: u in list[i].uses ==> UsedBy(ByName(list), list[i].name, u);
      }
    }
  }

  /** Something brought it in. */
  ghost predicate Justified(index: Index, requests: seq<Component>, full: set<Component>, c: Component) {
    c in requests || exists user :: user in full && UsedBy(index, user, c)
  }

  lemma LeastIsJustified(index: Index, requests: seq<Component>, full: set<Component>, c: Component)
    requires LeastClosed(index, requests, full) && c in full
    ensures Justified(index, requests, full, c)
  {
    if !Justified(index, requests, full, c) {
      assert Answers(index, requests, full - {c});
    }
  }

  lemma LeastMeans(list: seq<Spec>, requests: seq<Component>, full: set<Component>)
    requires LeastClosed(ByName(list), requests, full)
    ensures forall c :: c in requests ==> c in full
    ensures forall i, u :: 0 <= i < |list| && list[i].name in full && u in list[i].uses ==>
              u in full || exists j :: i < j < |list| && list[j].name == list[i].name
    ensures All in full ==> forall i :: 0 <= i < |list| ==> list[i].name in full
    ensures forall c :: c in full ==>
              || c in requests
              || (exists i :: 0 <= i < |list| && list[i].name in full && c in list[i].uses)
              || (All in full && exists i :: 0 <= i < |list| && list[i].name == c)
  {
    hide ByName;
    LeastHolds(list, requests, full);
    forall c | c in full && c !in requests
      ensures (exists i :: 0 <= i < |list| && list[i].name in full && c in list[i].uses)
              || (All in full && exists i :: 0 <= i < |list| && list[i].name == c)
    {
      LeastIsJustified(ByName(list), requests, full, c);
      var user :| user in full && UsedBy(ByName(list), user, c);
      IndexHoldsList(list, user);
      IndexHoldsList(list, c);
    }
  }

  // ----- Accepting a list of definitions -----

  const DEFAULT_BUILD := Spec(Build, [], false)
  const DEFAULT_RUN := Spec(Run, [], false)

  function Names(list: seq<Spec>): set<Component> {
    set i | 0 <= i < |list| :: list[i].name
  }

  predicate DistinctNames(list: seq<Spec>) {
    forall i, j :: 0 <= i < j < |list| ==> list[i].name != list[j].name
  }

  predicate UsesDefined(list: seq<Spec>, names: set<Component>) {
    forall i, u :: 0 <= i < |list| && u in list[i].uses ==> u in names
  }

  /** The input may be accepted: the defaults are added for it. */
  predicate Acceptable(input: seq<Spec>) {
    && DistinctNames(input) && All !in Names(input)
    && UsesDefined(input, Names(input) + {Build, Run})
  }

  /** The position of a component in its order: the reserved names first, then by name. */
  function Key(c: Component): string {
    match c
    case All => "0"
    case Build => "1"
    case Run => "2"
    case Source => "3"
    case Named(name) => "4" + name
  }

  function InsertSpec(spec: Spec, sorted: seq<Spec>): seq<Spec> {
    if sorted == [] || !Lexical.Less(Key(sorted[0].name), Key(spec.name)) then [spec] + sorted
    else [sorted[0]] + InsertSpec(spec, sorted[1..])
  }

  function SortSpecs(list: seq<Spec>): seq<Spec> {
    if list == [] then [] else InsertSpec(list[0], SortSpecs(list[1..]))
  }

  lemma {:induction false} InsertIsPermutation(spec: Spec, sorted: seq<Spec>)
    ensures multiset(InsertSpec(spec, sorted)) == multiset(sorted) + multiset{spec}
  {
    if sorted != [] && Lexical.Less(Key(sorted[0].name), Key(spec.name)) {
      InsertIsPermutation(spec, sorted[1..]);
      assert sorted == [sorted[0]] + sorted[1..];
    }
  }

  lemma {:induction false} SortIsPermutation(list: seq<Spec>)
    ensures multiset(SortSpecs(list)) == multiset(list)
  {
    if list != [] {
      SortIsPermutation(list[1..]);
      InsertIsPermutation(list[0], SortSpecs(list[1..]));
      assert list == [list[0]] + list[1..];
    }
  }

  predicate SortedByName(list: seq<Spec>) {
    forall i, j :: 0 <= i < j < |list| ==> !Lexical.Less(Key(list[j].name), Key(list[i].name))
  }

  lemma NotLessTransitive(a: string, b: string, c: string)
    requires !Lexical.Less(b, a) && !Lexical.Less(c, b)
    ensures !Lexical.Less(c, a)
  {
  }

  lemma {:induction false} InsertKeepsSorted(spec: Spec, sorted: seq<Spec>)
    requires SortedByName(sorted)
    ensures SortedByName(InsertSpec(spec, sorted))
  {
    if sorted != [] && Lexical.Less(Key(sorted[0].name), Key(spec.name)) {
      var rest := InsertSpec(spec, sorted[1..]);
      InsertKeepsSorted(spec, sorted[1..]);
      InsertIsPermutation(spec, sorted[1..]);
      if Lexical.Less(Key(spec.name), Key(sorted[0].name)) {
        Lexical.LessTransitive(Key(spec.name), Key(sorted[0].name), Key(spec.name));
        Lexical.LessIrreflexive(Key(spec.name));
      }
      forall j | 0 <= j < |rest|
        ensures !Lexical.Less(Key(rest[j].name), Key(sorted[0].name))
      {
        assert rest[j] in multiset(sorted[1..]) + multiset{spec};
      }
    } else if sorted != [] {
      forall j | 0 < j < |sorted|
        ensures !Lexical.Less(Key(sorted[j].name), Key(spec.name))
      {
        NotLessTransitive(Key(spec.name), Key(sorted[0].name), Key(sorted[j].name));
      }
    }
  }

  lemma {:induction false} SortIsSorted(list: seq<Spec>)
    ensures SortedByName(SortSpecs(list))
  {
    if list != [] {
      SortIsSorted(list[1..]);
      InsertKeepsSorted(list[0], SortSpecs(list[1..]));
    }
  }

  lemma SameNamesAndUses(a: seq<Spec>, b: seq<Spec>)
    requires multiset(a) == multiset(b)
    ensures Names(a) == Names(b)
    ensures UsesDefined(a, Names(a)) ==> UsesDefined(b, Names(b))
  {
    forall i | 0 <= i < |a|
      ensures exists j :: 0 <= j < |b| && b[j] == a[i]
    {
      assert a[i] in multiset(b);
    }
    forall i | 0 <= i < |b|
      ensures exists j :: 0 <= j < |a| && a[j] == b[i]
    {
      assert b[i] in multiset(a);
    }
  }

  lemma NamesOfAppend(list: seq<Spec>, spec: Spec)
    ensures Names(list + [spec]) == Names(list) + {spec.name}
  {
    var longer := list + [spec];
    assert longer[|list|] == spec;
    forall i | 0 <= i < |list|
      ensures list[i].name in Names(longer)
    {
      assert longer[i] == list[i];
    }
  }

  /** All specs have different names, with the names gathered on the way. */
  method GatherNames(input: seq<Spec>) returns (distinct: bool, seen: set<Component>)
    ensures distinct <==> DistinctNames(input)
    ensures distinct ==> seen == Names(input)
  {
    seen := {};
    for i := 0 to |input|
      invariant seen == Names(input[..i]) && DistinctNames(input[..i])
    {
      if input[i].name in seen {
        return false, seen;
      }
      NamesOfAppend(input[..i], input[i]);
      assert input[..i + 1] == input[..i] + [input[i]];
      seen := seen + {input[i].name};
    }
    assert input[..|input|] == input;
    distinct := true;
  }

  method UsesAreDefined(components: seq<Spec>, seen: set<Component>) returns (ok: bool, remaining: bool)
    ensures ok <==> UsesDefined(components, seen)
    ensures ok ==> (remaining <==> AnyRemaining(components))
  {
    remaining := false;
    for i := 0 to |components|
      invariant remaining <==> exists k :: 0 <= k < i && components[k].remaining
      invariant forall k, u :: 0 <= k < i && u in components[k].uses ==> u in seen
    {
      remaining := remaining || components[i].remaining;
      for j := 0 to |components[i].uses|
        invariant forall k :: 0 <= k < j ==> components[i].uses[k] in seen
      {
        if components[i].uses[j] !in seen {
          assert components[i].uses[j] in components[i].uses;
          return false, remaining;
        }
      }
    }
    ok := true;
  }

  /** A definition that uses nothing changes no answer about uses. */
  lemma UsesOfAppend(list: seq<Spec>, spec: Spec, names: set<Component>)
    requires spec.uses == []
    ensures UsesDefined(list + [spec], names) <==> UsesDefined(list, names)
  {
    var longer := list + [spec];
    assert forall i :: 0 <= i < |list| ==> longer[i] == list[i];
  }

  predicate AnyRemaining(list: seq<Spec>) {
    exists i :: 0 <= i < |list| && list[i].remaining
  }

  function Defaulted(list: seq<Spec>, spec: Spec): seq<Spec> {
    if spec.name in Names(list) then list else list + [spec]
  }

  /** The input with the definitions that every package has. */
  function WithDefaults(input: seq<Spec>): seq<Spec> {
    Defaulted(Defaulted(input, DEFAULT_BUILD), DEFAULT_RUN)
  }

  /** Add a default definition if there is none of that name. */
  method AddDefault(list: seq<Spec>, spec: Spec) returns (result: seq<Spec>)
    requires spec.uses == [] && !spec.remaining
    ensures result == Defaulted(list, spec)
    ensures Names(result) == Names(list) + {spec.name}
    ensures AnyRemaining(result) <==> AnyRemaining(list)
    ensures forall names :: UsesDefined(result, names) <==> UsesDefined(list, names)
  {
    result := list;
    if spec.name !in Names(list) {
      result := list + [spec];
      NamesOfAppend(list, spec);
      forall names
        ensures UsesDefined(result, names) <==> UsesDefined(list, names)
      {
        UsesOfAppend(list, spec, names);
      }
      assert forall i :: 0 <= i < |list| ==> result[i] == list[i];
    } else {
      assert Names(list) + {spec.name} == Names(list);
    }
  }

  /** Reading a list of definitions: `None` is an error. */
  method ReadSpecs(input: seq<Spec>) returns (result: Option<seq<Spec>>)
    // accepted: no name twice, none is `All`, and what is used is defined or has a default
    ensures result.Some? <==>
            && (forall i, j :: 0 <= i < j < |input| ==> input[i].name != input[j].name)
            && (forall i :: 0 <= i < |input| ==> input[i].name != All)
            && forall i, u :: 0 <= i < |input| && u in input[i].uses ==>
                 u == Build || u == Run || exists j :: 0 <= j < |input| && input[j].name == u
    // read: the definitions of the input, and those of `Build` and `Run` that it does not have
    ensures result.Some? ==> forall spec :: spec in result.value <==>
              || spec in input
              || (spec == Spec(Build, [], false) && Build !in Names(input))
              || (spec == Spec(Run, [], false) && Run !in Names(input))
    ensures result.Some? ==> |input| <= |result.value| <= |input| + 2
    // in the given order if some definition takes the remaining files
    ensures result.Some? && (exists i :: 0 <= i < |input| && input[i].remaining) ==>
              result.value[..|input|] == input
    // and by name otherwise
    ensures result.Some? && (forall i :: 0 <= i < |input| ==> !input[i].remaining) ==>
              forall i, j :: 0 <= i < j < |result.value| ==>
                !Lexical.Less(Key(result.value[j].name), Key(result.value[i].name))
    ensures result.Some? ==> Names(result.value) == Names(input) + {Build, Run}
    ensures result.Some? ==> UsesDefined(result.value, Names(result.value)) && All !in Names(result.value)
    ensures result.Some? ==> multiset(result.value) == multiset(WithDefaults(input))
    ensures result.Some? ==>
            if AnyRemaining(input) then result.value == WithDefaults(input) else SortedByName(result.value)
  {
    var distinct, seen := GatherNames(input);
    if !distinct {
      return None;
    }
    AcceptableMeans(input);
    WithDefaultsMeans(input);
    hide Acceptable;
    var components := AddDefault(input, DEFAULT_BUILD);
    components := AddDefault(components, DEFAULT_RUN);
    seen := seen + {Build, Run};
    assert Names(components) == seen;
    if All in seen {
      return None;
    }
    var ok, remaining := UsesAreDefined(components, seen);
    if !ok {
      return None;
    }
    if !remaining {
      SortIsPermutation(components);
      SortIsSorted(components);
      SameNamesAndUses(components, SortSpecs(components));
      components := SortSpecs(components);
    }
    SameMembers(components, WithDefaults(input));
    result := Some(components);
  }

  lemma AcceptableMeans(input: seq<Spec>)
    ensures Acceptable(input) <==>
            && (forall i, j :: 0 <= i < j < |input| ==> input[i].name != input[j].name)
            && (forall i :: 0 <= i < |input| ==> input[i].name != All)
            && forall i, u :: 0 <= i < |input| && u in input[i].uses ==>
                 u == Build || u == Run || exists j :: 0 <= j < |input| && input[j].name == u
  {
    var names := Names(input) + {Build, Run};
    forall u
      ensures u in names <==> u == Build || u == Run || exists j :: 0 <= j < |input| && input[j].name == u
    {
    }
    assert All in Names(input) <==> exists i :: 0 <= i < |input| && input[i].name == All;
    if UsesDefined(input, names) {
      forall i, u | 0 <= i < |input| && u in input[i].uses
        ensures u == Build || u == Run || exists j :: 0 <= j < |input| && input[j].name == u
      {
        assert u in names;
      }
    }
  }

  lemma WithDefaultsMeans(input: seq<Spec>)
    ensures forall spec :: spec in WithDefaults(input) <==>
              || spec in input
              || (spec == Spec(Build, [], false) && Build !in Names(input))
              || (spec == Spec(Run, [], false) && Run !in Names(input))
    ensures |input| <= |WithDefaults(input)| <= |input| + 2
    ensures WithDefaults(input)[..|input|] == input
  {
    var once := Defaulted(input, DEFAULT_BUILD);
    if Build !in Names(input) {
      NamesOfAppend(input, DEFAULT_BUILD);
    }
    assert Run in Names(once) <==> Run in Names(input);
  }

  lemma SameMembers(a: seq<Spec>, b: seq<Spec>)
    requires multiset(a) == multiset(b)
    ensures |a| == |b| && forall spec :: spec in a <==> spec in b
  {
    assert |multiset(a)| == |a| && |multiset(b)| == |b|;
    assert forall spec :: spec in a <==> spec in multiset(a);
    assert forall spec :: spec in b <==> spec in multiset(b);
  }

  /** The reserved names come first, in this order, and the others by name. */
  lemma KeyOrder(c: Component, d: Component)
    ensures Lexical.Less(Key(c), Key(d)) <==>
            || (c.All? && !d.All?)
            || (c.Build? && (d.Run? || d.Source? || d.Named?))
            || (c.Run? && (d.Source? || d.Named?))
            || (c.Source? && d.Named?)
            || (c.Named? && d.Named? && Lexical.Less(c.name, d.name))
  {
    if c.Named? && d.Named? {
      assert Key(c)[1..] == c.name && Key(d)[1..] == d.name;
    } else {
      assert Key(c)[0] != Key(d)[0] || c == d;
      Lexical.LessIrreflexive(Key(c));
    }
  }

  /** There is only one least set, so the answer to a request is determined. */
  lemma LeastIsUnique(index: Index, requests: seq<Component>, a: set<Component>, b: set<Component>)
    requires LeastClosed(index, requests, a) && LeastClosed(index, requests, b)
    ensures a == b
  {
  }

  /**
    On an accepted list, the least closed set of a request for names of the list, or for all of
    them, holds only names of the list besides `All`.
   */
  lemma ClosureStaysInList(list: seq<Spec>, requests: seq<Component>, full: set<Component>)
    requires UsesDefined(list, Names(list)) && All !in Names(list)
    requires forall c :: c in requests ==> c in Names(list) + {All}
    requires LeastClosed(ByName(list), requests, full)
    ensures full - {All} <= Names(list)
  {
    assert Answers(ByName(list), requests, Names(list) + {All}) by {
      forall c, needed | c in Names(list) + {All} && UsedBy(ByName(list), c, needed)
        ensures needed in Names(list)
      {
        IndexHoldsList(list, c);
        IndexHoldsList(list, needed);
      }
    }
  }

  lemma {:induction false} IndexHoldsList(list: seq<Spec>, c: Component)
    ensures c in ByName(list) ==> exists i :: 0 <= i < |list| && list[i] == ByName(list)[c] && list[i].name == c
  {
    if list != [] {
      var init := list[..|list| - 1];
      IndexHoldsList(init, c);
      if c in ByName(init) && c != list[|list| - 1].name {
        var i :| 0 <= i < |init| && init[i] == ByName(init)[c] && init[i].name == c;
        assert list[i] == ByName(list)[c];
      } else {
        assert list[|list| - 1] == list[|list| - 1];
      }
    }
  }
}
