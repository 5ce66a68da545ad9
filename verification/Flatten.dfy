/**
  Choosing the directories of an overlay mount: the flatten loop of `resolve_overlay_dirs` in
  `crates/spfs/src/resolve.rs`.

  `M` is a manifest. Whether the mount arguments fit is a predicate on the list of manifests
  whose render directories would be mounted.
 */
module Flatten {
  import opened Graph

  datatype Resolved<M> =
    | Existing(order: nat, manifest: M)
    | Proposed(group: seq<Resolved<M>>)

  const FLATTEN_GROUP_SIZE: nat := 7

  /** No group is empty. */
  predicate WellFormed<M>(r: Resolved<M>) {
    r.Proposed? ==> |r.group| > 0 && forall i :: 0 <= i < |r.group| ==> WellFormed(r.group[i])
  }

  predicate AllWellFormed<M>(list: seq<Resolved<M>>) {
    forall i :: 0 <= i < |list| ==> WellFormed(list[i])
  }

  /** The existing manifests with their orders, left to right. */
  function Leaves<M>(r: Resolved<M>): seq<(nat, M)> {
    match r
    case Existing(order, manifest) => [(order, manifest)]
    case Proposed(group) => LeavesOf(group)
  }

  function LeavesOf<M>(list: seq<Resolved<M>>): seq<(nat, M)> {
    if list == [] then [] else Leaves(list[0]) + LeavesOf(list[1..])
  }

  lemma {:induction false} LeavesOfConcat<M>(a: seq<Resolved<M>>, b: seq<Resolved<M>>)
    ensures LeavesOf(a + b) == LeavesOf(a) + LeavesOf(b)
  {
    if a == [] {
      assert a + b == b;
    } else {
      LeavesOfConcat(a[1..], b);
      assert (a + b)[1..] == a[1..] + b && (a + b)[0] == a[0];
      assert LeavesOf(a + b) == Leaves(a[0]) + LeavesOf(a[1..] + b);
      hide LeavesOf, Leaves;
      ConcatAssociates(Leaves(a[0]), LeavesOf(a[1..]), LeavesOf(b));
    }
  }

  function Manifests<M>(leaves: seq<(nat, M)>): seq<M> {
    seq(|leaves|, i requires 0 <= i < |leaves| => leaves[i].1)
  }

  /** The manifest that stands for a group until it is merged: its first one. */
  function Placeholder<M>(r: Resolved<M>): M
    requires WellFormed(r)
  {
    match r
    case Existing(_, manifest) => manifest
    case Proposed(group) => Placeholder(group[0])
  }

  /** A group stands at the place of its lowest manifest. */
  lemma {:induction false} PlaceholderIsLowest<M>(r: Resolved<M>)
    requires WellFormed(r)
    ensures Leaves(r) != [] && Placeholder(r) == Leaves(r)[0].1
  {
    if r.Proposed? {
      PlaceholderIsLowest(r.group[0]);
    }
  }

  function Placeholders<M>(list: seq<Resolved<M>>): seq<M>
    requires AllWellFormed(list)
  {
    seq(|list|, i requires 0 <= i < |list| => Placeholder(list[i]))
  }

  // ----- One round of flattening -----

  /** Drain the first `n` and put them back as one group. */
  function GroupFirst<M>(list: seq<Resolved<M>>, n: nat): seq<Resolved<M>>
    requires n <= |list|
  {
    [Proposed(list[..n])] + list[n..]
  }

  function RoundFrom<M>(list: seq<Resolved<M>>, toFlatten: nat): seq<Resolved<M>>
    requires toFlatten <= |list|
    decreases toFlatten
  {
    if toFlatten <= 1 then list
    else
      var n := if toFlatten < FLATTEN_GROUP_SIZE then toFlatten else FLATTEN_GROUP_SIZE;
      RoundFrom(GroupFirst(list, n), toFlatten - n)
  }

  /** Flatten about half of the list, from the bottom, in groups of seven. */
  function Round<M>(list: seq<Resolved<M>>): seq<Resolved<M>> {
    RoundFrom(list, |list| / 2)
  }

  function Rounds<M>(list: seq<Resolved<M>>, k: nat): seq<Resolved<M>> {
    if k == 0 then list else Round(Rounds(list, k - 1))
  }

  /** What every list met by the loop satisfies: only its bottom element may be a group. */
  predicate OnlyBottomGrouped<M>(list: seq<Resolved<M>>) {
    AllWellFormed(list) && forall i :: 0 < i < |list| ==> list[i].Existing?
  }

  lemma {:induction false} RoundFromKeeps<M>(list: seq<Resolved<M>>, toFlatten: nat)
    requires OnlyBottomGrouped(list) && toFlatten <= |list|
    ensures OnlyBottomGrouped(RoundFrom(list, toFlatten))
    ensures LeavesOf(RoundFrom(list, toFlatten)) == LeavesOf(list)
    ensures |RoundFrom(list, toFlatten)| <= |list|
    ensures toFlatten > 1 ==> |RoundFrom(list, toFlatten)| < |list|
    decreases toFlatten
  {
    if toFlatten > 1 {
      var n := if toFlatten < FLATTEN_GROUP_SIZE then toFlatten else FLATTEN_GROUP_SIZE;
      var grouped := GroupFirst(list, n);
      assert WellFormed(grouped[0]);
      assert list == list[..n] + list[n..];
      LeavesOfConcat(list[..n], list[n..]);
      assert grouped[1..] == list[n..];
      RoundFromKeeps(grouped, toFlatten - n);
    }
  }

  /**
    A round keeps the leaves in their order and leaves only the bottom element grouped. It
    shortens the list exactly when there are at least four elements, and otherwise changes
    nothing.
   */
  lemma RoundKeeps<M>(list: seq<Resolved<M>>)
    requires OnlyBottomGrouped(list)
    ensures OnlyBottomGrouped(Round(list)) && LeavesOf(Round(list)) == LeavesOf(list)
    ensures |list| >= 4 <==> |Round(list)| < |list|
    ensures |list| < 4 ==> Round(list) == list
  {
    RoundFromKeeps(list, |list| / 2);
  }

  function GroupCount(toFlatten: nat): nat {
    toFlatten / 7 + if toFlatten % 7 > 1 then 1 else 0
  }

  function GroupSize(toFlatten: nat, i: nat): nat {
    if i < toFlatten / 7 then 7 else toFlatten % 7
  }

  lemma SizesGoOn(toFlatten: nat, i: nat)
    requires toFlatten >= 7
    ensures GroupSize(toFlatten, 0) == 7 && GroupSize(toFlatten, i + 1) == GroupSize(toFlatten - 7, i)
    ensures GroupCount(toFlatten) == GroupCount(toFlatten - 7) + 1
  {
  }

  /** Group `i` is at the bottom of the list, or holds the group before and goes on where that ends. */
  ghost predicate GoesOn<M>(list: seq<Resolved<M>>, groups: seq<Resolved<M>>, toFlatten: nat, i: nat)
    requires i < |groups|
  {
    var size := GroupSize(toFlatten, i);
    && groups[i].Proposed? && 6 * i + size <= |list| && size > 1
    && groups[i].group == if i == 0 then list[..size] else [groups[i - 1]] + list[6 * i + 1..6 * i + size]
  }

  ghost predicate AllGoOn<M>(list: seq<Resolved<M>>, groups: seq<Resolved<M>>, toFlatten: nat) {
    forall i :: 0 <= i < |groups| ==> GoesOn(list, groups, toFlatten, i)
  }

  /** The last group, and what is above it. */
  ghost predicate OnTop<M>(list: seq<Resolved<M>>, groups: seq<Resolved<M>>, toFlatten: nat, result: seq<Resolved<M>>) {
    if groups == [] then result == list
    else
      var above := 6 * (|groups| - 1) + GroupSize(toFlatten, |groups| - 1);
      above <= |list| && result == [groups[|groups| - 1]] + list[above..]
  }

  lemma GroupedSlice<M>(list: seq<Resolved<M>>, a: nat, b: nat)
    requires 7 <= |list| && 1 <= a <= b <= |list| - 6
    ensures |GroupFirst(list, 7)| == |list| - 6 && GroupFirst(list, 7)[a..b] == list[a + 6..b + 6]
  {
    var grouped := GroupFirst(list, 7);
    forall k | a <= k < b
      ensures grouped[k] == list[k + 6]
    {
    }
  }

  lemma GoesOnBelow<M>(list: seq<Resolved<M>>, rest: seq<Resolved<M>>, toFlatten: nat, i: nat)
    requires 7 <= toFlatten <= |list| && i < |rest| && GoesOn(GroupFirst(list, 7), rest, toFlatten - 7, i)
    ensures GoesOn(list, [Proposed(list[..7])] + rest, toFlatten, i + 1)
  {
    var first, grouped, size := Proposed(list[..7]), GroupFirst(list, 7), GroupSize(toFlatten, i + 1);
    var groups := [first] + rest;
    SizesGoOn(toFlatten, i);
    hide GroupSize;
    assert groups[i + 1] == rest[i];
    GroupedSlice(list, 6 * i + 1, 6 * i + size);
    if i == 0 {
      assert grouped[..size] == [first] + grouped[1..size];
    } else {
      assert groups[i] == rest[i - 1];
    }
  }

  lemma AllGoOnBelow<M>(list: seq<Resolved<M>>, rest: seq<Resolved<M>>, toFlatten: nat)
    requires 7 <= toFlatten <= |list| && AllGoOn(GroupFirst(list, 7), rest, toFlatten - 7)
    ensures AllGoOn(list, [Proposed(list[..7])] + rest, toFlatten)
  {
    var groups := [Proposed(list[..7])] + rest;
    forall i | 0 <= i < |groups|
      ensures GoesOn(list, groups, toFlatten, i)
    {
      if i > 0 {
        hide GoesOn;
        assert GoesOn(GroupFirst(list, 7), rest, toFlatten - 7, i - 1);
        GoesOnBelow(list, rest, toFlatten, i - 1);
      }
    }
  }

  lemma GroupedTail<M>(list: seq<Resolved<M>>, a: nat)
    requires 7 <= |list| && 1 <= a <= |list| - 6
    ensures |GroupFirst(list, 7)| == |list| - 6 && GroupFirst(list, 7)[a..] == list[a + 6..]
  {
    GroupedSlice(list, a, |list| - 6);
    assert GroupFirst(list, 7)[a..] == GroupFirst(list, 7)[a..|list| - 6] && list[a + 6..] == list[a + 6..|list|];
  }

  lemma OnTopBelow<M>(list: seq<Resolved<M>>, rest: seq<Resolved<M>>, toFlatten: nat, result: seq<Resolved<M>>)
    requires 7 <= toFlatten <= |list| && AllGoOn(GroupFirst(list, 7), rest, toFlatten - 7)
    requires OnTop(GroupFirst(list, 7), rest, toFlatten - 7, result)
    ensures OnTop(list, [Proposed(list[..7])] + rest, toFlatten, result)
  {
    SizesGoOn(toFlatten, 0);
    var groups, grouped := [Proposed(list[..7])] + rest, GroupFirst(list, 7);
    if rest != [] {
      SizesGoOn(toFlatten, |rest| - 1);
      assert GoesOn(grouped, rest, toFlatten - 7, |rest| - 1);
      var above := 6 * (|rest| - 1) + GroupSize(toFlatten, |rest|);
      assert groups[|groups| - 1] == rest[|rest| - 1] && 1 <= above <= |grouped|;
      assert result == [rest[|rest| - 1]] + grouped[above..];
      hide GroupSize, GoesOn, AllGoOn, GroupFirst;
      GroupedTail(list, above);
    }
  }

  /**
    How the bottom of a list is grouped: so many groups of seven, and one of what is left if that is
    more than one, each but the first around the group before.
   */
  lemma {:induction false} GroupsFrom<M>(list: seq<Resolved<M>>, toFlatten: nat) returns (groups: seq<Resolved<M>>)
    requires toFlatten <= |list|
    ensures |groups| == GroupCount(toFlatten) && AllGoOn(list, groups, toFlatten)
    ensures OnTop(list, groups, toFlatten, RoundFrom(list, toFlatten))
    decreases toFlatten
  {
    if toFlatten <= 1 {
      groups := [];
    } else if toFlatten < 7 {
      groups := [Proposed(list[..toFlatten])];
      assert RoundFrom(GroupFirst(list, toFlatten), 0) == GroupFirst(list, toFlatten);
    } else {
      assert RoundFrom(list, toFlatten) == RoundFrom(GroupFirst(list, 7), toFlatten - 7);
      var rest := GroupsFrom(GroupFirst(list, 7), toFlatten - 7);
      hide RoundFrom, AllGoOn, OnTop, GroupCount;
      groups := [Proposed(list[..7])] + rest;
      SizesGoOn(toFlatten, 0);
      AllGoOnBelow(list, rest, toFlatten);
      OnTopBelow(list, rest, toFlatten, RoundFrom(list, toFlatten));
    }
  }

  lemma TopShape<M>(list: seq<Resolved<M>>, groups: seq<Resolved<M>>, half: nat, result: seq<Resolved<M>>)
    requires half <= |list| && |groups| == GroupCount(half) && OnTop(list, groups, half, result)
    ensures |result| == |list| - 6 * (half / 7) - (if half % 7 > 1 then half % 7 - 1 else 0)
    ensures |result| >= |list| - half && result[|result| - (|list| - half)..] == list[half..]
    ensures groups != [] ==> result == [groups[|groups| - 1]] + list[|list| - |result| + 1..]
  {
    if groups != [] {
      var above := 6 * (|groups| - 1) + GroupSize(half, |groups| - 1);
      assert above <= half && |result| == |list| - above + 1;
      assert result[|result| - (|list| - half)..] == list[above..][half - above..];
    }
  }

  lemma GroupShape<M>(list: seq<Resolved<M>>, groups: seq<Resolved<M>>, half: nat, i: nat)
    requires AllGoOn(list, groups, half) && i < |groups|
    ensures groups[i].Proposed? && |groups[i].group| == (if i < half / 7 then 7 else half % 7)
    ensures 1 < |groups[i].group| <= |list| - 6 * i
    ensures groups[i].group == if i == 0 then list[..|groups[i].group|]
                               else [groups[i - 1]] + list[6 * i + 1..6 * i + |groups[i].group|]
  {
    assert GoesOn(list, groups, half, i);
  }

  lemma ShapeFrom<M>(list: seq<Resolved<M>>, half: nat) returns (groups: seq<Resolved<M>>)
    requires half <= |list|
    ensures var result := RoundFrom(list, half);
            && |groups| == half / 7 + (if half % 7 > 1 then 1 else 0)
            && |result| == |list| - 6 * (half / 7) - (if half % 7 > 1 then half % 7 - 1 else 0)
            && |result| >= |list| - half && result[|result| - (|list| - half)..] == list[half..]
            && (groups == [] ==> result == list)
            && (groups != [] ==> result == [groups[|groups| - 1]] + list[|list| - |result| + 1..])
    ensures AllGoOn(list, groups, half)
  {
    groups := GroupsFrom(list, half);
    TopShape(list, groups, half, RoundFrom(list, half));
    hide RoundFrom, AllGoOn;
  }

  /**
    A round flattens only within the lower half of the list, rounded down, in groups of seven and one
    of what is left if that is more than one. The first group holds the bottom of the list, every other
    one the group before and what comes next; everything above the last one stays as it is.
   */
  lemma RoundShape<M>(list: seq<Resolved<M>>) returns (groups: seq<Resolved<M>>)
    ensures var half := |list| / 2;
            && |groups| == half / 7 + (if half % 7 > 1 then 1 else 0)
            && |Round(list)| == |list| - 6 * (half / 7) - (if half % 7 > 1 then half % 7 - 1 else 0)
            && |Round(list)| >= |list| - half && Round(list)[|Round(list)| - (|list| - half)..] == list[half..]
            && (groups == [] ==> Round(list) == list)
            && (groups != [] ==> Round(list) == [groups[|groups| - 1]] + list[|list| - |Round(list)| + 1..])
            && forall i :: 0 <= i < |groups| ==>
                 && groups[i].Proposed? && |groups[i].group| == (if i < half / 7 then 7 else half % 7)
                 && 1 < |groups[i].group| <= |list| - 6 * i
                 && groups[i].group == if i == 0 then list[..|groups[i].group|]
                                       else [groups[i - 1]] + list[6 * i + 1..6 * i + |groups[i].group|]
  {
    var half := |list| / 2;
    groups := ShapeFrom(list, half);
    assert Round(list) == RoundFrom(list, half);
    hide *;
    forall i | 0 <= i < |groups|
      ensures groups[i].Proposed? && |groups[i].group| == (if i < half / 7 then 7 else half % 7)
      ensures 1 < |groups[i].group| <= |list| - 6 * i
      ensures groups[i].group == if i == 0 then list[..|groups[i].group|]
                                 else [groups[i - 1]] + list[6 * i + 1..6 * i + |groups[i].group|]
    {
      GroupShape(list, groups, half, i);
    }
  }

  lemma {:induction false} RoundsKeep<M>(list: seq<Resolved<M>>, k: nat)
    requires OnlyBottomGrouped(list)
    ensures OnlyBottomGrouped(Rounds(list, k)) && LeavesOf(Rounds(list, k)) == LeavesOf(list)
  {
    if k > 0 {
      RoundsKeep(list, k - 1);
      RoundKeeps(Rounds(list, k - 1));
    }
  }

  /** Once three or fewer are left, further rounds change nothing. */
  lemma {:induction false} StuckRounds<M>(list: seq<Resolved<M>>, k: nat, j: nat)
    requires OnlyBottomGrouped(list) && |Rounds(list, k)| < 4 && k <= j
    ensures Rounds(list, j) == Rounds(list, k)
    decreases j
  {
    if k < j {
      StuckRounds(list, k, j - 1);
      RoundsKeep(list, k);
      RoundKeeps(Rounds(list, k));
    }
  }

  /** The list is well formed after `k` rounds, and then fits. */
  predicate FitsAfter<M>(list: seq<Resolved<M>>, k: nat, fits: seq<M> -> bool) {
    AllWellFormed(Rounds(list, k)) && fits(Placeholders(Rounds(list, k)))
  }

  /** The inner loop, with its drain and insert. */
  method FlattenRound<M>(list: seq<Resolved<M>>) returns (result: seq<Resolved<M>>)
    requires OnlyBottomGrouped(list)
    ensures result == Round(list)
  {
    result := list;
    var toFlatten := |list| / 2;
    while toFlatten > 1
      invariant 0 <= toFlatten <= |result|
      invariant RoundFrom(result, toFlatten) == Round(list)
    {
      var n := if toFlatten < FLATTEN_GROUP_SIZE then toFlatten else FLATTEN_GROUP_SIZE;
      var drained := result[..n];
      result := result[n..];
      result := [Proposed(drained)] + result;
      toFlatten := toFlatten - n;
    }
  }

  /** So many rounds make the arguments fit, and no fewer do. */
  ghost predicate FirstFit<M(!new)>(list: seq<Resolved<M>>, k: nat, fits: seq<M> -> bool) {
    FitsAfter(list, k, fits) && forall j: nat :: j < k ==> !FitsAfter(list, j, fits)
  }

  /**
    The outer loop: flatten until the arguments fit. `None` stands for a loop that never ends;
    that happens exactly when no number of rounds makes them fit.
   */
  method FlattenUntilFits<M(!new)>(list: seq<Resolved<M>>, fits: seq<M> -> bool)
    returns (result: Option<seq<Resolved<M>>>, ghost steps: seq<seq<Resolved<M>>>)
    requires OnlyBottomGrouped(list)
    ensures steps != [] && steps[0] == list && forall i :: 0 < i < |steps| ==> steps[i] == Round(steps[i - 1])
    ensures forall i :: 0 <= i < |steps| ==> AllWellFormed(steps[i])
    ensures forall i :: 0 <= i < |steps| - 1 ==> !fits(Placeholders(steps[i]))
    ensures if result.Some? then steps[|steps| - 1] == result.value
            else |steps[|steps| - 1]| < 4 && !fits(Placeholders(steps[|steps| - 1]))
    ensures result.None? <==> forall k: nat :: !FitsAfter(list, k, fits)
    ensures result.Some? ==>
              && OnlyBottomGrouped(result.value) && fits(Placeholders(result.value))
              && LeavesOf(result.value) == LeavesOf(list)
              && exists k: nat :: result.value == Rounds(list, k) && FirstFit(list, k, fits)
    ensures (forall s :: |s| < 4 ==> fits(s)) ==> result.Some?
  {
    var current := list;
    ghost var k: nat := 0;
    steps := [list];
    while !fits(Placeholders(current))
      invariant current == Rounds(list, k)
      invariant OnlyBottomGrouped(current) && LeavesOf(current) == LeavesOf(list)
      invariant forall j: nat :: j < k ==> !FitsAfter(list, j, fits)
      invariant |steps| == k + 1 && steps[0] == list && steps[k] == current
      invariant forall i :: 0 < i < |steps| ==> steps[i] == Round(steps[i - 1])
      invariant forall i :: 0 <= i < |steps| ==> AllWellFormed(steps[i])
      invariant forall i :: 0 <= i < k ==> !fits(Placeholders(steps[i]))
      decreases |current|
    {
      RoundKeeps(current);
      assert !FitsAfter(list, k, fits);
      if |current| < 4 {
        forall j: nat
          ensures !FitsAfter(list, j, fits)
        {
          if j > k {
            StuckRounds(list, k, j);
          }
        }
        return None, steps;
      }
      current := FlattenRound(current);
      k := k + 1;
      steps := steps + [current];
    }
    assert FitsAfter(list, k, fits);
    result := Some(current);
  }

  // ----- Recovering the leaves of a group -----

  function Reverse<T>(s: seq<T>): seq<T> {
    if s == [] then [] else Reverse(s[1..]) + [s[0]]
  }

  function Insert<M>(x: (nat, M), sorted: seq<(nat, M)>): seq<(nat, M)> {
    if sorted == [] || x.0 <= sorted[0].0 then [x] + sorted
    else [sorted[0]] + Insert(x, sorted[1..])
  }

  /** A stable sort by order. */
  function SortByOrder<M>(s: seq<(nat, M)>): seq<(nat, M)> {
    if s == [] then [] else Insert(s[0], SortByOrder(s[1..]))
  }

  predicate Increasing<M>(s: seq<(nat, M)>) {
    forall i, j :: 0 <= i < j < |s| ==> s[i].0 < s[j].0
  }

  lemma {:induction false} InsertAtEnd<M>(x: (nat, M), s: seq<(nat, M)>)
    requires forall i :: 0 <= i < |s| ==> s[i].0 < x.0
    ensures Insert(x, s) == s + [x]
  {
    if s != [] {
      InsertAtEnd(x, s[1..]);
    }
  }

  lemma {:induction false} ReverseAppend<T>(s: seq<T>, x: T)
    ensures Reverse(s + [x]) == [x] + Reverse(s)
  {
    if s != [] {
      ReverseAppend(s[1..], x);
      assert (s + [x])[1..] == s[1..] + [x];
    }
  }

  /** Sorting undoes the reversal of an increasing sequence. */
  lemma {:induction false} SortOfReversed<M>(s: seq<(nat, M)>)
    requires Increasing(s)
    ensures SortByOrder(Reverse(s)) == s
  {
    if s != [] {
      var init, last := s[..|s| - 1], s[|s| - 1];
      assert s == init + [last];
      ReverseAppend(init, last);
      SortOfReversed(init);
      InsertAtEnd(last, init);
    }
  }

  function Nodes<M>(list: seq<Resolved<M>>): nat {
    if list == [] then 0
    else 1 + (if list[0].Proposed? then Nodes(list[0].group) else 0) + Nodes(list[1..])
  }

  lemma {:induction false} NodesOfConcat<M>(a: seq<Resolved<M>>, b: seq<Resolved<M>>)
    ensures Nodes(a + b) == Nodes(a) + Nodes(b)
  {
    if a == [] {
      assert a + b == b;
    } else {
      NodesOfConcat(a[1..], b);
      assert (a + b)[1..] == a[1..] + b;
    }
  }

  lemma LeavesOfOne<M>(r: Resolved<M>)
    ensures LeavesOf([r]) == Leaves(r)
    ensures Nodes([r]) == 1 + if r.Proposed? then Nodes(r.group) else 0
  {
  }

  /** Popping the top of the stack: the leaves met so far grow from the right. */
  lemma PopTop<M>(rest: seq<Resolved<M>>, top: Resolved<M>)
    ensures top.Existing? ==>
              && Reverse(LeavesOf(rest + [top])) == [(top.order, top.manifest)] + Reverse(LeavesOf(rest))
              && Nodes(rest) < Nodes(rest + [top])
    ensures top.Proposed? ==>
              && LeavesOf(rest + [top]) == LeavesOf(rest + top.group)
              && Nodes(rest + top.group) < Nodes(rest + [top])
  {
    LeavesOfOne(top);
    LeavesOfConcat(rest, [top]);
    NodesOfConcat(rest, [top]);
    if top.Existing? {
      ReverseAppend(LeavesOf(rest), (top.order, top.manifest));
    } else {
      LeavesOfConcat(rest, top.group);
      NodesOfConcat(rest, top.group);
    }
  }

  /**
    The manifests of a nested group by an explicit stack, which meets them from right to left,
    and a sort, which puts them back in order.
   */
  method ExistingManifests<M>(r: Resolved<M>) returns (manifests: seq<M>)
    ensures manifests == Manifests(SortByOrder(Reverse(Leaves(r))))
    ensures Increasing(Leaves(r)) ==> manifests == Manifests(Leaves(r))
  {
    var result: seq<(nat, M)> := [];
    var stack := [r];
    LeavesOfOne(r);
    while stack != []
      invariant Reverse(Leaves(r)) == result + Reverse(LeavesOf(stack))
      decreases Nodes(stack)
    {
      var top, rest := stack[|stack| - 1], stack[..|stack| - 1];
      assert stack == rest + [top];
      PopTop(rest, top);
      match top {
        case Existing(order, manifest) =>
          result := result + [(order, manifest)];
          stack := rest;
        case Proposed(group) =>
          stack := rest + group;
      }
    }
    assert Reverse(Leaves(r)) == result;
    if Increasing(Leaves(r)) {
      SortOfReversed(Leaves(r));
    }
    manifests := Manifests(SortByOrder(result));
  }

  // ----- Merging the groups -----

  /** Layer the manifests on top of `acc`, from bottom to top. */
  function Fold<M>(update: (M, M) -> M, acc: M, manifests: seq<M>): M {
    if manifests == [] then acc else Fold(update, update(acc, manifests[0]), manifests[1..])
  }

  lemma {:induction false} FoldConcat<M>(update: (M, M) -> M, acc: M, a: seq<M>, b: seq<M>)
    ensures Fold(update, acc, a + b) == Fold(update, Fold(update, acc, a), b)
    decreases |a|
  {
    if a == [] {
      assert a + b == b;
    } else {
      FoldConcat(update, update(acc, a[0]), a[1..], b);
      assert (a + b)[1..] == a[1..] + b;
    }
  }

  /**
    What is mounted for an element: itself, or the merge of its leaves after the merged manifest
    was written to the repository, `stored`.
   */
  function Merged<M>(update: (M, M) -> M, empty: M, stored: M -> M, r: Resolved<M>): M {
    match r
    case Existing(_, manifest) => manifest
    case Proposed(_) => stored(Fold(update, empty, Manifests(Leaves(r))))
  }

  function MergedAll<M>(update: (M, M) -> M, empty: M, stored: M -> M, list: seq<Resolved<M>>): seq<M> {
    seq(|list|, i requires 0 <= i < |list| => Merged(update, empty, stored, list[i]))
  }

  lemma ManifestsConcat<M>(a: seq<(nat, M)>, b: seq<(nat, M)>)
    ensures Manifests(a + b) == Manifests(a) + Manifests(b)
  {
  }

  /** The loop over the final list, and the loop over the elements of a group. */
  method MergeGroups<M>(update: (M, M) -> M, empty: M, stored: M -> M, list: seq<Resolved<M>>)
    returns (resolved: seq<M>)
    requires Increasing(LeavesOf(list))
    ensures resolved == MergedAll(update, empty, stored, list)
  {
    resolved := [];
    for i := 0 to |list|
      invariant resolved == MergedAll(update, empty, stored, list)[..i]
    {
      match list[i] {
        case Existing(_, manifest) => resolved := resolved + [manifest];
        case Proposed(group) =>
          ElementIncreasing(list, i);
          var merged := MergeGroup(update, empty, group);
          resolved := resolved + [stored(merged)];
      }
    }
  }

  lemma {:induction false} LeavesSplit<M>(list: seq<Resolved<M>>, i: nat)
    requires i < |list|
    ensures LeavesOf(list[..i + 1]) == LeavesOf(list[..i]) + Leaves(list[i])
    ensures LeavesOf(list) == LeavesOf(list[..i + 1]) + LeavesOf(list[i + 1..])
  {
    assert list[..i + 1] == list[..i] + [list[i]];
    LeavesOfConcat(list[..i], [list[i]]);
    LeavesOfOne(list[i]);
    assert list == list[..i + 1] + list[i + 1..];
    LeavesOfConcat(list[..i + 1], list[i + 1..]);
  }

  lemma IncreasingPart<M>(a: seq<(nat, M)>, b: seq<(nat, M)>, c: seq<(nat, M)>)
    requires Increasing(a + b + c)
    ensures Increasing(b)
  {
    forall j, k | 0 <= j < k < |b|
      ensures b[j].0 < b[k].0
    {
      assert b[j] == (a + b + c)[|a| + j] && b[k] == (a + b + c)[|a| + k];
    }
  }

  /** The leaves of one element are a part of the leaves of the list. */
  lemma ElementIncreasing<M>(list: seq<Resolved<M>>, i: nat)
    requires i < |list| && Increasing(LeavesOf(list))
    ensures Increasing(Leaves(list[i]))
  {
    LeavesSplit(list, i);
    IncreasingPart(LeavesOf(list[..i]), Leaves(list[i]), LeavesOf(list[i + 1..]));
  }

  method FoldManifests<M>(update: (M, M) -> M, acc: M, manifests: seq<M>) returns (result: M)
    ensures result == Fold(update, acc, manifests)
  {
    result := acc;
    for i := 0 to |manifests|
      invariant Fold(update, result, manifests[i..]) == Fold(update, acc, manifests)
    {
      assert manifests[i..][1..] == manifests[i + 1..];
      result := update(result, manifests[i]);
    }
  }

  method MergeGroup<M>(update: (M, M) -> M, empty: M, group: seq<Resolved<M>>) returns (merged: M)
    requires Increasing(LeavesOf(group))
    ensures merged == Fold(update, empty, Manifests(LeavesOf(group)))
  {
    merged := empty;
    for i := 0 to |group|
      invariant merged == Fold(update, empty, Manifests(LeavesOf(group[..i])))
    {
      ElementIncreasing(group, i);
      var manifests := ExistingManifests(group[i]);
      LeavesSplit(group, i);
      ManifestsConcat(LeavesOf(group[..i]), Leaves(group[i]));
      FoldConcat(update, empty, Manifests(LeavesOf(group[..i])), manifests);
      merged := FoldManifests(update, merged, manifests);
    }
    assert group[..|group|] == group;
  }

  lemma FoldOne<M>(update: (M, M) -> M, acc: M, m: M)
    ensures Fold(update, acc, [m]) == update(acc, m)
  {
  }

  /**
    Both overlays are the same layers on top of something else: the bottom group, or what is
    mounted for it. Groups are merged by `merge`, and what is mounted is overlaid by `mount`.
   */
  lemma OverlayFromBottom<M>(merge: (M, M) -> M, mount: (M, M) -> M, empty: M, stored: M -> M, list: seq<Resolved<M>>)
    requires OnlyBottomGrouped(list) && list != []
    ensures var tops := Manifests(LeavesOf(list[1..]));
            && Fold(mount, empty, Manifests(LeavesOf(list)))
               == Fold(mount, Fold(mount, empty, Manifests(Leaves(list[0]))), tops)
            && Fold(mount, empty, MergedAll(merge, empty, stored, list))
               == Fold(mount, mount(empty, Merged(merge, empty, stored, list[0])), tops)
  {
    var tops, merged := Manifests(LeavesOf(list[1..])), MergedAll(merge, empty, stored, list);
    ManifestsConcat(Leaves(list[0]), LeavesOf(list[1..]));
    ExistingTail(merge, empty, stored, list);
    assert merged == [merged[0]] + tops;
    FoldConcat(mount, empty, Manifests(Leaves(list[0])), tops);
    FoldConcat(mount, empty, [merged[0]], tops);
    FoldOne(mount, empty, merged[0]);
  }

  /**
    Flattening preserves the overlay for any two operations, associative or not: as only the
    bottom element is ever a group, it is enough that the stored merge of that one group looks
    like the group itself.
   */
  lemma FlatteningPreservesOverlay<M>(merge: (M, M) -> M, mount: (M, M) -> M, empty: M, stored: M -> M,
                                      list: seq<Resolved<M>>)
    requires OnlyBottomGrouped(list)
    requires list != [] && list[0].Proposed? ==>
               var bottom := Manifests(Leaves(list[0]));
               mount(empty, stored(Fold(merge, empty, bottom))) == Fold(mount, empty, bottom)
    ensures Fold(mount, empty, MergedAll(merge, empty, stored, list)) == Fold(mount, empty, Manifests(LeavesOf(list)))
  {
    if list != [] {
      OverlayFromBottom(merge, mount, empty, stored, list);
      if list[0].Existing? {
        assert Manifests(Leaves(list[0])) == [list[0].manifest];
        FoldOne(mount, empty, list[0].manifest);
      }
    }
  }

  /** Above the bottom element nothing is merged. */
  lemma ExistingTail<M>(update: (M, M) -> M, empty: M, stored: M -> M, list: seq<Resolved<M>>)
    requires OnlyBottomGrouped(list) && list != []
    ensures MergedAll(update, empty, stored, list)[1..] == Manifests(LeavesOf(list[1..]))
  {
    AllExisting(list[1..]);
  }

  lemma {:induction false} AllExisting<M>(list: seq<Resolved<M>>)
    requires forall i :: 0 <= i < |list| ==> list[i].Existing?
    ensures |LeavesOf(list)| == |list|
    ensures forall i :: 0 <= i < |list| ==> LeavesOf(list)[i] == (list[i].order, list[i].manifest)
  {
    if list != [] {
      AllExisting(list[1..]);
    }
  }
}
