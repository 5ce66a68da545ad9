/**
  The stack of a runtime or platform, `crates/spfs/src/graph/stack.rs`, and the two ways in
  which repeated layers are dropped: a stack keeps the last occurrence of a digest, while
  `unique` in `crates/spfs/src/resolve.rs` keeps the first.
 */
module LayerStack {
  import opened Graph

  predicate NoRepeats<T(==)>(s: seq<T>) {
    s == [] || (s[|s| - 1] !in s[..|s| - 1] && NoRepeats(s[..|s| - 1]))
  }

  /** No two places hold the same. */
  lemma {:induction false} NoRepeatsMeans<T>(s: seq<T>)
    ensures NoRepeats(s) <==> forall i, j :: 0 <= i < j < |s| ==> s[i] != s[j]
  {
    if s != [] {
      var init, last := s[..|s| - 1], s[|s| - 1];
      NoRepeatsMeans(init);
      if last in init {
        var i :| 0 <= i < |init| && init[i] == last;
        assert s[i] == s[|s| - 1];
      }
    }
  }

  function Without<T(==, !new)>(s: seq<T>, x: T): (r: seq<T>)
    ensures forall y :: y in r <==> y in s && y != x
  {
    if s == [] then []
    else
      var init, last := s[..|s| - 1], s[|s| - 1];
      assert s == init + [last];
      if last == x then Without(init, x) else Without(init, x) + [last]
  }

  lemma {:induction false} WithoutDistinct<T(!new)>(s: seq<T>, x: T)
    ensures NoRepeats(s) ==> NoRepeats(Without(s, x))
    ensures x !in s ==> Without(s, x) == s
  {
    if s != [] {
      WithoutDistinct(s[..|s| - 1], x);
    }
  }

  lemma {:induction false} WithoutConcat<T(!new)>(a: seq<T>, b: seq<T>, x: T)
    ensures Without(a + b, x) == Without(a, x) + Without(b, x)
  {
    if b == [] {
      assert a + b == a;
    } else {
      var init := b[..|b| - 1];
      assert (a + b)[..|a + b| - 1] == a + init;
      WithoutConcat(a, init, x);
    }
  }

  /** Only the last occurrence of every element. */
  function Lasts<T(==, !new)>(s: seq<T>): (r: seq<T>)
    ensures NoRepeats(r) && forall x :: x in r <==> x in s
  {
    if s == [] then []
    else
      var init, last := s[..|s| - 1], s[|s| - 1];
      assert s == init + [last];
      WithoutDistinct(Lasts(init), last);
      Without(Lasts(init), last) + [last]
  }

  /** Only the first occurrence of every element. */
  function Firsts<T(==, !new)>(s: seq<T>): (r: seq<T>)
    ensures NoRepeats(r) && forall x :: x in r <==> x in s
  {
    if s == [] then []
    else
      var init, last := s[..|s| - 1], s[|s| - 1];
      assert s == init + [last];
      if last in init then Firsts(init) else Firsts(init) + [last]
  }

  class Stack {
    /** From bottom to top. */
    var items: seq<Digest>

    ghost predicate Valid()
      reads this
    {
      NoRepeats(items)
    }

    constructor ()
      ensures Valid() && items == []
    {
      items := [];
    }

    /**
      Walk up the stack, removing the item where it is met, and put it on top. The answer is
      false exactly when the stack stays as it was.
     */
    method Push(x: Digest) returns (changed: bool)
      requires Valid()
      modifies this
      ensures Valid() && items == Without(old(items), x) + [x]
      ensures !changed <==> items == old(items)
    {
      ghost var before := items;
      var node := 0;
      while node < |items|
        invariant node <= |items| && Walked(items, before, x, node)
        decreases |items| - node
      {
        if items[node] == x {
          if node == |items| - 1 {
            FoundOnTop(items, before, x, node);
            return false;
          }
          FoundBelow(items, before, x, node);
          hide Walked;
          items := items[..node] + items[node + 1..];
        } else {
          NotFound(items, before, x, node);
          hide Walked;
          node := node + 1;
        }
      }
      NowhereLeft(items, before, x);
      hide Walked;
      items := items + [x];
      changed := true;
    }

    /** The stack is what pushing these leaves. */
    ghost predicate HoldsLasts(pushed: seq<Digest>)
      reads this
    {
      Valid() && items == Lasts(pushed)
    }

    method PushNext(ghost pushed: seq<Digest>, x: Digest)
      requires HoldsLasts(pushed)
      modifies this
      ensures HoldsLasts(pushed + [x])
    {
      hide Without, NoRepeats, Lasts;
      LastsNext(pushed, x);
      var _ := Push(x);
    }

    /** Push one by one. */
    method Extend(more: seq<Digest>)
      requires Valid()
      modifies this
      ensures Valid() && items == Lasts(old(items) + more)
    {
      LastsOfDistinct(items);
      ghost var pushed := items;
      assert HoldsLasts(pushed);
      hide Without, NoRepeats, Lasts, HoldsLasts;
      for i := 0 to |more|
        invariant HoldsLasts(pushed)
        invariant pushed == old(items) + more[..i]
      {
        PushNext(pushed, more[i]);
        pushed := pushed + [more[i]];
      }
      assert more[..|more|] == more;
      Unfold(pushed);
    }

    lemma Unfold(pushed: seq<Digest>)
      requires HoldsLasts(pushed)
      ensures Valid() && items == Lasts(pushed)
    {
    }
  }

  /** Below `node` the stack has been searched; what was found has been taken out. */
  ghost predicate Walked(s: seq<Digest>, before: seq<Digest>, x: Digest, node: nat) {
    && node <= |s| && NoRepeats(s) && NoRepeats(before) && x !in s[..node]
    && (s == before || (x !in s && s == Without(before, x) && Shorter(s, before)))
  }

  lemma NotFound(s: seq<Digest>, before: seq<Digest>, x: Digest, node: nat)
    requires Walked(s, before, x, node) && node < |s| && s[node] != x
    ensures Walked(s, before, x, node + 1)
  {
    assert s[..node + 1] == s[..node] + [s[node]];
  }

  lemma FoundOnTop(s: seq<Digest>, before: seq<Digest>, x: Digest, node: nat)
    requires Walked(s, before, x, node) && node == |s| - 1 && s[node] == x
    ensures s == before && NoRepeats(s) && s == Without(before, x) + [x]
  {
    Around(s, node);
    assert s == s[..node] + [x];
  }

  lemma FoundBelow(s: seq<Digest>, before: seq<Digest>, x: Digest, node: nat)
    requires Walked(s, before, x, node) && node < |s| - 1 && s[node] == x
    ensures Walked(s[..node] + s[node + 1..], before, x, node)
  {
    Around(s, node);
    WithoutDistinct(s, x);
    assert (s[..node] + s[node + 1..])[..node] == s[..node];
  }

  lemma NowhereLeft(s: seq<Digest>, before: seq<Digest>, x: Digest)
    requires Walked(s, before, x, |s|)
    ensures NoRepeats(s + [x]) && s + [x] == Without(before, x) + [x] && s + [x] != before
  {
    assert s[..|s|] == s && (s + [x])[..|s|] == s;
    WithoutDistinct(s, x);
  }

  /** Something below the top was taken out. */
  predicate Shorter<T(==)>(s: seq<T>, before: seq<T>) {
    0 < |s| < |before| && s[|s| - 1] == before[|before| - 1]
  }

  /** Taking out the only occurrence of an element. */
  lemma {:induction false} Around<T(!new)>(s: seq<T>, k: nat)
    requires NoRepeats(s) && k < |s|
    ensures Without(s, s[k]) == s[..k] + s[k + 1..] && s[k] !in Without(s, s[k])
  {
    var init := s[..|s| - 1];
    if k < |s| - 1 {
      Around(init, k);
      NoRepeatsMeans(s);
      assert s[k + 1..] == init[k + 1..] + [s[|s| - 1]];
    } else {
      WithoutDistinct(init, s[k]);
    }
  }

  lemma {:induction false} LastsOfDistinct<T(!new)>(s: seq<T>)
    requires NoRepeats(s)
    ensures Lasts(s) == s
  {
    if s != [] {
      LastsOfDistinct(s[..|s| - 1]);
      WithoutDistinct(s[..|s| - 1], s[|s| - 1]);
      assert s == s[..|s| - 1] + [s[|s| - 1]];
    }
  }

  lemma {:induction false} FirstsOfDistinct<T(!new)>(s: seq<T>)
    requires NoRepeats(s)
    ensures Firsts(s) == s
  {
    if s != [] {
      FirstsOfDistinct(s[..|s| - 1]);
    }
  }

  /** Elements come in the order of their first occurrences. */
  lemma {:induction false} FirstsInOrder<T(!new)>(s: seq<T>, i: nat, j: nat) returns (k: nat)
    requires i < j < |Firsts(s)|
    ensures k < |s| && s[k] == Firsts(s)[i] && Firsts(s)[j] !in s[..k + 1]
  {
    var init := s[..|s| - 1];
    if j < |Firsts(init)| {
      k := FirstsInOrder(init, i, j);
      assert init[..k + 1] == s[..k + 1];
    } else {
      assert Firsts(init)[i] in init;
      k :| k < |init| && init[k] == Firsts(init)[i];
      assert forall x :: x in s[..k + 1] ==> x in init;
    }
  }

  /** Elements come in the order of their last occurrences. */
  lemma {:induction false} LastsInOrder<T(!new)>(s: seq<T>, i: nat, j: nat) returns (k: nat)
    requires i < j < |Lasts(s)|
    ensures k < |s| && s[k] == Lasts(s)[j] && Lasts(s)[i] !in s[k..]
  {
    var init, last := s[..|s| - 1], s[|s| - 1];
    assert Lasts(s) == Without(Lasts(init), last) + [last];
    hide NoRepeats, Lasts, Without;
    var x := Without(Lasts(init), last)[i];
    assert x in Without(Lasts(init), last);
    if j == |Lasts(s)| - 1 {
      k := |s| - 1;
      assert s[k..] == [last];
    } else {
      var i', j' := WithoutKeepsOrder(Lasts(init), last, i, j);
      k := LastsInOrder(init, i', j');
      LaterStays(init, last, k, x);
      assert s == init + [last];
    }
  }

  lemma LaterStays<T>(init: seq<T>, last: T, k: nat, x: T)
    requires k < |init| && x !in init[k..] && x != last
    ensures (init + [last])[k] == init[k] && x !in (init + [last])[k..]
  {
    assert (init + [last])[k..] == init[k..] + [last];
  }

  lemma {:induction false} WithoutKeepsOrder<T(!new)>(s: seq<T>, x: T, i: nat, j: nat) returns (i': nat, j': nat)
    requires i < j < |Without(s, x)|
    ensures i' < j' < |s| && s[i'] == Without(s, x)[i] && s[j'] == Without(s, x)[j]
  {
    var init := s[..|s| - 1];
    if j < |Without(init, x)| {
      i', j' := WithoutKeepsOrder(init, x, i, j);
    } else {
      assert Without(init, x)[i] in init;
      i' :| i' < |init| && init[i'] == Without(init, x)[i];
      j' := |s| - 1;
    }
  }

  lemma LastsNext<T(!new)>(s: seq<T>, x: T)
    ensures Lasts(s + [x]) == Without(Lasts(s), x) + [x]
  {
  }

  /** What is below is irrelevant once all of it is pushed again. */
  lemma PushedAgain<T(!new)>(below: seq<T>, s: seq<T>)
    requires forall x :: x in below ==> x in s
    ensures Lasts(below + s) == Lasts(s)
  {
    LastsConcat(below, s);
    WithoutAllMembers(Lasts(below), s);
    if WithoutAll(Lasts(below), s) != [] {
      HasMember(WithoutAll(Lasts(below), s));
    }
  }

  lemma HasMember<T(!new)>(s: seq<T>)
    requires s != []
    ensures exists x :: x in s
  {
    assert s[0] in s;
  }

  /** What is left of `a` once the members of `b` are taken out. */
  function WithoutAll<T(==, !new)>(a: seq<T>, b: seq<T>): seq<T> {
    if b == [] then a else Without(WithoutAll(a, b[..|b| - 1]), b[|b| - 1])
  }

  lemma {:induction false} WithoutAllMembers<T(!new)>(a: seq<T>, b: seq<T>)
    ensures forall x :: x in WithoutAll(a, b) <==> x in a && x !in b
  {
    if b != [] {
      WithoutAllMembers(a, b[..|b| - 1]);
      assert b == b[..|b| - 1] + [b[|b| - 1]];
    }
  }

  lemma {:induction false} LastsConcat<T(!new)>(a: seq<T>, b: seq<T>)
    ensures Lasts(a + b) == WithoutAll(Lasts(a), b) + Lasts(b)
  {
    if b == [] {
      assert a + b == a;
    } else {
      var init, last := b[..|b| - 1], b[|b| - 1];
      assert (a + b)[..|a + b| - 1] == a + init;
      LastsConcat(a, init);
      WithoutConcat(WithoutAll(Lasts(a), init), Lasts(init), last);
    }
  }

  lemma FirstsNext<T(!new)>(s: seq<T>, x: T)
    ensures Firsts(s + [x]) == if x in s then Firsts(s) else Firsts(s) + [x]
  {
  }

  /** Dropping repeats inside a part first makes no difference. */
  lemma {:induction false} FirstsInside<T(!new)>(a: seq<T>, b: seq<T>)
    ensures Firsts(a + Firsts(b)) == Firsts(a + b)
  {
    hide NoRepeats;
    if b != [] {
      var init, last := b[..|b| - 1], b[|b| - 1];
      FirstsInside(a, init);
      assert (a + b)[..|a + b| - 1] == a + init;
      if last !in init {
        assert (a + Firsts(b))[..|a + Firsts(b)| - 1] == a + Firsts(init);
      }
    }
  }

  lemma {:induction false} FirstsBefore<T(!new)>(a: seq<T>, b: seq<T>)
    ensures Firsts(Firsts(a) + b) == Firsts(a + b)
  {
    hide NoRepeats;
    if b == [] {
      assert Firsts(a) + b == Firsts(a) && a + b == a;
      FirstsOfDistinct(Firsts(a));
    } else {
      var init := b[..|b| - 1];
      FirstsBefore(a, init);
      assert (a + b)[..|a + b| - 1] == a + init;
      assert (Firsts(a) + b)[..|Firsts(a) + b| - 1] == Firsts(a) + init;
    }
  }
}
