/**
  What dropping repeated layers means for a stack: for the merged manifest of its layers, and for
  what a runtime shows that mounts them.

  Keeping the last occurrence of every layer, as a stack does, never changes either. Keeping the
  first, as `unique` in `crates/spfs/src/resolve.rs` does, may change both.
 */
module StackMeaning {
  import opened Graph
  import opened Flatten
  import opened Overlay
  import opened LayerStack
  import M = Mount

  type Manifest = e: Entry | IsManifest(e) witness EMPTY

  /** Which manifest each digest stands for. */
  type Content = Digest -> Manifest

  function Layered(content: Content, stack: seq<Digest>): (layers: seq<Entry>)
    ensures AreManifests(layers) && |layers| == |stack|
  {
    seq(|stack|, i requires 0 <= i < |stack| => content(stack[i]))
  }

  /** The merged manifest of a stack, from the bottom up. */
  function Tree(content: Content, stack: seq<Digest>): Entry {
    Fold(Update, EMPTY, Layered(content, stack))
  }

  // ----- A layer hides what the same layer left further down -----

  /** If the upper layer hides `x` completely, it hides `x` below another layer too. */
  lemma {:induction false} HiddenBelow(x: Entry, b: Entry, a: Entry)
    requires NoLeftovers(a) && NoLeftovers(b) && Update(x, a) == a
    ensures Update(Update(x, b), a) == Update(b, a)
    decreases a, 1
  {
    if a.kind.Tree? && b.kind.Tree? {
      hide Update, NoLeftovers;
      TreeUpdate(x, b);
      TreeUpdate(x, a);
      TreeUpdate(b, a);
      TreeUpdate(Update(x, b), a);
      var l, r := Update(Update(x, b), a), Update(b, a);
      forall n | n in l.entries
        ensures n in r.entries && l.entries[n] == r.entries[n]
      {
        HiddenName(x, b, a, n);
      }
      assert l.entries == r.entries;
    } else if a.kind.Tree? {
      SameEntries(Update(x, b), x, a);
      EntriesOnNothing(b, a);
    } else {
      EntriesOnNothing(x, b);
    }
  }

  lemma {:induction false} HiddenName(x: Entry, b: Entry, a: Entry, n: string)
    requires NoLeftovers(a) && NoLeftovers(b) && Update(x, a) == a && a.kind.Tree? && b.kind.Tree?
    requires n in x.entries.Keys + b.entries.Keys + a.entries.Keys
    ensures n in b.entries.Keys + a.entries.Keys
    ensures Update(Update(x, b), a).entries[n] == Update(b, a).entries[n]
    decreases a, 0
  {
    var u := Update(x, a);
    assert n in x.entries ==> n in u.entries;
    if n in a.entries && n in b.entries && n in x.entries && !a.entries[n].kind.Mask? && !b.entries[n].kind.Mask? {
      HiddenBelow(x.entries[n], b.entries[n], a.entries[n]);
    }
  }

  /** If two trees look the same below a layer, they do so with another layer in between. */
  lemma {:induction false} SameBelow(x: Entry, y: Entry, b: Entry, a: Entry)
    requires NoLeftovers(a) && NoLeftovers(b) && Update(x, a) == Update(y, a)
    ensures Update(Update(x, b), a) == Update(Update(y, b), a)
    decreases a, 1
  {
    if !a.kind.Tree? {
      assert x.entries == y.entries;
      SameEntries(x, y, b);
    } else if !b.kind.Tree? {
      SameEntries(Update(x, b), x, a);
      SameEntries(Update(y, b), y, a);
    } else {
      hide Update, NoLeftovers;
      TreeUpdate(x, b);
      TreeUpdate(y, b);
      TreeUpdate(x, a);
      TreeUpdate(y, a);
      TreeUpdate(Update(x, b), a);
      TreeUpdate(Update(y, b), a);
      var l, r := Update(Update(x, b), a), Update(Update(y, b), a);
      forall n | n in l.entries
        ensures n in r.entries && l.entries[n] == r.entries[n]
      {
        SameName(x, y, b, a, n);
      }
      assert l.entries == r.entries;
    }
  }

  lemma {:induction false} SameName(x: Entry, y: Entry, b: Entry, a: Entry, n: string)
    requires NoLeftovers(a) && NoLeftovers(b) && Update(x, a) == Update(y, a) && a.kind.Tree? && b.kind.Tree?
    requires n in x.entries.Keys + b.entries.Keys + a.entries.Keys
    ensures n in y.entries.Keys + b.entries.Keys + a.entries.Keys
    ensures Update(Update(x, b), a).entries[n] == Update(Update(y, b), a).entries[n]
    decreases a, 0
  {
    var ux, uy := Update(x, a), Update(y, a);
    assert n in x.entries ==> n in ux.entries;
    assert n in y.entries ==> n in uy.entries;
    if n in a.entries && n in b.entries && !a.entries[n].kind.Mask? && !b.entries[n].kind.Mask? {
      if n in x.entries && n in y.entries {
        SameBelow(x.entries[n], y.entries[n], b.entries[n], a.entries[n]);
      } else if n in x.entries {
        HiddenBelow(x.entries[n], b.entries[n], a.entries[n]);
      } else if n in y.entries {
        HiddenBelow(y.entries[n], b.entries[n], a.entries[n]);
      }
    }
  }

  lemma {:induction false} UpdateItself(a: Entry)
    ensures Update(a, a) == a
  {
    forall n | n in a.entries
      ensures Update(a.entries[n], a.entries[n]) == a.entries[n]
    {
      UpdateItself(a.entries[n]);
    }
    if a.kind.Tree? {
      assert Update(a, a).entries == a.entries;
    }
  }

  lemma {:induction false} UpdateTwice(x: Entry, a: Entry)
    ensures Update(Update(x, a), a) == Update(x, a)
    decreases a
  {
    if a.kind.Tree? {
      forall n | n in a.entries
        ensures Update(a.entries[n], a.entries[n]) == a.entries[n]
        ensures n in x.entries ==>
                  Update(Update(x.entries[n], a.entries[n]), a.entries[n]) == Update(x.entries[n], a.entries[n])
      {
        UpdateItself(a.entries[n]);
        if n in x.entries {
          UpdateTwice(x.entries[n], a.entries[n]);
        }
      }
      assert Update(Update(x, a), a).entries == Update(x, a).entries;
    }
  }

  lemma {:induction false} SameBelowAll(x: Entry, y: Entry, tops: seq<Entry>, a: Entry)
    requires AreManifests(tops) && NoLeftovers(a) && Update(x, a) == Update(y, a)
    ensures Update(Fold(Update, x, tops), a) == Update(Fold(Update, y, tops), a)
    decreases |tops|
  {
    if tops != [] {
      SameBelow(x, y, tops[0], a);
      SameBelowAll(Update(x, tops[0]), Update(y, tops[0]), tops[1..], a);
    }
  }

  // ----- Keeping the last occurrence -----

  lemma TreeOfConcat(content: Content, a: seq<Digest>, b: seq<Digest>)
    ensures Tree(content, a + b) == Fold(Update, Tree(content, a), Layered(content, b))
  {
    assert Layered(content, a + b) == Layered(content, a) + Layered(content, b);
    FoldConcat(Update, EMPTY, Layered(content, a), Layered(content, b));
  }

  lemma TreeOfPush(content: Content, s: seq<Digest>, d: Digest)
    ensures Tree(content, s + [d]) == Update(Tree(content, s), content(d))
  {
    TreeOfConcat(content, s, [d]);
    assert Layered(content, [d]) == [content(d)];
    FoldOne(Update, Tree(content, s), content(d));
  }

  /** Taking a layer out of a stack makes no difference once it is on top. */
  lemma RemovedBelow(content: Content, s: seq<Digest>, d: Digest)
    requires NoRepeats(s)
    ensures Tree(content, Without(s, d) + [d]) == Tree(content, s + [d])
  {
    if d in s {
      var k :| 0 <= k < |s| && s[k] == d;
      Around(s, k);
      var p, q := s[..k], s[k + 1..];
      assert s == p + [d] + q;
      TreeOfConcat(content, p, q);
      TreeOfConcat(content, p + [d], q);
      TreeOfPush(content, p, d);
      UpdateTwice(Tree(content, p), content(d));
      SameBelowAll(Tree(content, p), Update(Tree(content, p), content(d)), Layered(content, q), content(d));
      TreeOfPush(content, p + q, d);
      TreeOfPush(content, s, d);
    } else {
      WithoutDistinct(s, d);
    }
  }

  /** A stack that keeps only the last occurrence of every layer shows the same tree. */
  lemma {:induction false} LastsShowTheSame(content: Content, s: seq<Digest>)
    ensures Tree(content, Lasts(s)) == Tree(content, s)
  {
    if s != [] {
      var init, last := s[..|s| - 1], s[|s| - 1];
      assert s == init + [last];
      LastsShowTheSame(content, init);
      RemovedBelow(content, Lasts(init), last);
      TreeOfPush(content, Lasts(init), last);
      TreeOfPush(content, init, last);
    }
  }

  // ----- Keeping the first occurrence -----

  /** Whatever the layers hold, both stacks show the same tree. */
  ghost predicate SameForAll(s: seq<Digest>, t: seq<Digest>) {
    forall content: Content :: Visible(Tree(content, s)) == Visible(Tree(content, t))
  }

  const MARK: string := "f"

  function Marked(mode: nat): Manifest {
    var file := Entry(File(0, 0), mode, map[]);
    assert NoLeftovers(file);
    Entry(Kind.Tree, OPEN_DIR_MODE, map[MARK := file])
  }

  /** Two layers hold the same file with different permissions; all others are empty. */
  function Marking(x: Digest, y: Digest): Content {
    (d: Digest) => MarkOf(x, y, d)
  }

  function MarkOf(x: Digest, y: Digest, d: Digest): Manifest {
    if d == x then Marked(1) else if d == y then Marked(2) else EMPTY
  }

  /** Which of the two is further up: 1 for `x`, 2 for `y`, 0 if neither is there. */
  function Upper(x: Digest, y: Digest, s: seq<Digest>): nat {
    if s == [] then 0
    else if s[|s| - 1] == x then 1
    else if s[|s| - 1] == y then 2
    else Upper(x, y, s[..|s| - 1])
  }

  lemma {:induction false} UpperDecides(x: Digest, y: Digest, s: seq<Digest>)
    requires x != y
    ensures Tree(Marking(x, y), s) == if Upper(x, y, s) == 0 then EMPTY else Marked(Upper(x, y, s))
  {
    if s != [] {
      var init, last := s[..|s| - 1], s[|s| - 1];
      assert s == init + [last];
      UpperDecides(x, y, init);
      TreeOfPush(Marking(x, y), init, last);
      assert Update(EMPTY, EMPTY) == EMPTY;
      OnEmpty(Marked(1));
      OnEmpty(Marked(2));
      MarkOver(Upper(x, y, init), 1);
      MarkOver(Upper(x, y, init), 2);
    }
  }

  lemma MarkOver(i: nat, j: nat)
    ensures Update(Marked(i), Marked(j)) == Marked(j)
    ensures Update(Marked(i), EMPTY) == Marked(i)
    ensures i != j ==> Visible(Marked(i)) != Visible(Marked(j))
  {
    UpdateAt(Marked(i), Marked(j), MARK);
    UpdateAt(Marked(i), EMPTY, MARK);
    assert Update(Marked(i), Marked(j)).entries == Marked(j).entries;
    assert Update(Marked(i), EMPTY).entries == Marked(i).entries;
    MarkVisible(i);
    MarkVisible(j);
  }

  function MarkFile(mode: nat): Entry { Entry(File(0, 0), mode, map[]) }

  lemma MarkVisible(mode: nat)
    ensures Visible(Marked(mode)).entries == map[MARK := MarkFile(mode)]
  {
    var e: Entry := Marked(mode);
    assert e.entries == map[MARK := MarkFile(mode)];
    assert Visible(e).entries[MARK] == Visible(MarkFile(mode)) == MarkFile(mode);
  }

  /** Two orders of the same layers disagree on some pair. */
  lemma {:induction false} Disagreement(u: seq<Digest>, v: seq<Digest>) returns (x: Digest, y: Digest)
    requires NoRepeats(u) && NoRepeats(v) && u != v && forall d :: d in u <==> d in v
    ensures x != y && x in u && y in u && Upper(x, y, u) == 1 && Upper(x, y, v) == 2
  {
    if u == [] {
      HasMember(v);
    } else if v == [] {
      HasMember(u);
    } else {
      x, y := u[|u| - 1], v[|v| - 1];
      if x == y {
        var iu, iv := u[..|u| - 1], v[..|v| - 1];
        assert u == iu + [x] && v == iv + [y];
        assert forall d :: d in iu <==> d in u && d != x;
        assert forall d :: d in iv <==> d in v && d != x;
        x, y := Disagreement(iu, iv);
      }
    }
  }

  /**
    Keeping the first occurrences instead shows the same tree for all contents of the layers if
    and only if the first and the last occurrences come in the same order.
   */
  lemma FirstsShowTheSameIff(s: seq<Digest>)
    ensures SameForAll(Firsts(s), s) <==> Firsts(s) == Lasts(s)
  {
    if Firsts(s) == Lasts(s) {
      forall content: Content
        ensures Visible(Tree(content, Firsts(s))) == Visible(Tree(content, s))
      {
        LastsShowTheSame(content, s);
      }
    } else {
      var x, y := Disagreement(Firsts(s), Lasts(s));
      var content := Marking(x, y);
      UpperDecides(x, y, Firsts(s));
      UpperDecides(x, y, Lasts(s));
      LastsShowTheSame(content, s);
      MarkOver(1, 2);
      assert Visible(Tree(content, Firsts(s))) != Visible(Tree(content, s));
    }
  }

  // ----- The same for what is mounted -----

  /** What a runtime with this stack shows. */
  function View(content: Content, stack: seq<Digest>): Entry {
    M.Shown(Layered(content, stack), M.Merge(Layered(content, stack)))
  }

  lemma StackShowsPush(content: Content, s: seq<Digest>, d: Digest, p: M.Path)
    ensures var w := M.Says(content(d), p);
            M.StackShows(Layered(content, s + [d]), p) ==
            if w.Gives? then Some(w.node) else if w.Hides? then None else M.StackShows(Layered(content, s), p)
  {
    var layers := Layered(content, s + [d]);
    assert layers[..|layers| - 1] == Layered(content, s);
  }

  /** A layer that does not decide about a path can be taken out. */
  lemma {:induction false} UndecidedTakenOut(content: Content, s: seq<Digest>, d: Digest, p: M.Path)
    requires !M.Says(content(d), p).Gives? && !M.Says(content(d), p).Hides?
    ensures M.StackShows(Layered(content, Without(s, d)), p) == M.StackShows(Layered(content, s), p)
  {
    if s != [] {
      var init, last := s[..|s| - 1], s[|s| - 1];
      assert s == init + [last];
      UndecidedTakenOut(content, init, d, p);
      StackShowsPush(content, init, last, p);
      if last != d {
        StackShowsPush(content, Without(init, d), last, p);
      }
    }
  }

  lemma {:induction false} LastsShowAt(content: Content, s: seq<Digest>, p: M.Path)
    ensures M.StackShows(Layered(content, Lasts(s)), p) == M.StackShows(Layered(content, s), p)
  {
    if s != [] {
      var init, last := s[..|s| - 1], s[|s| - 1];
      assert s == init + [last];
      LastsShowAt(content, init, p);
      StackShowsPush(content, init, last, p);
      StackShowsPush(content, Without(Lasts(init), last), last, p);
      if !M.Says(content(last), p).Gives? && !M.Says(content(last), p).Hides? {
        UndecidedTakenOut(content, Lasts(init), last, p);
      }
    }
  }

  /** A runtime whose stack keeps only the last occurrence of every layer shows the same. */
  lemma LastsMountTheSame(content: Content, s: seq<Digest>)
    ensures View(content, Lasts(s)) == View(content, s)
  {
    var a, b := Layered(content, Lasts(s)), Layered(content, s);
    LastsShowTheSame(content, s);
    M.MergeIsFold(a);
    M.MergeIsFold(b);
    M.MergeIsDirectory(b);
    M.ShownIsPlain(a, M.Merge(b));
    M.ShownIsPlain(b, M.Merge(b));
    forall p
      ensures M.Shows(M.Shown(a, M.Merge(b)), p) == M.Shows(M.Shown(b, M.Merge(b)), p)
    {
      LastsShowAt(content, s, p);
      M.ShownAt(a, M.Merge(b), p);
      M.ShownAt(b, M.Merge(b), p);
    }
    M.SameAtEveryPath(M.Shown(a, M.Merge(b)), M.Shown(b, M.Merge(b)));
  }

  /** Whatever the layers hold, runtimes with both stacks show the same. */
  ghost predicate SameView(s: seq<Digest>, t: seq<Digest>) {
    forall content: Content :: View(content, s) == View(content, t)
  }

  lemma MarkSays(x: Digest, y: Digest, d: Digest)
    ensures M.Says(MarkOf(x, y, d), [MARK]) ==
            if d == x then M.Gives(M.Node(File(0, 0), 1))
            else if d == y then M.Gives(M.Node(File(0, 0), 2))
            else M.Silent
  {
    assert [MARK][1..] == [];
  }

  lemma {:induction false} UpperShows(x: Digest, y: Digest, s: seq<Digest>)
    requires x != y
    ensures M.StackShows(Layered(Marking(x, y), s), [MARK]) ==
            if Upper(x, y, s) == 0 then None else Some(M.Node(File(0, 0), Upper(x, y, s)))
  {
    if s != [] {
      var init, last := s[..|s| - 1], s[|s| - 1];
      assert s == init + [last];
      UpperShows(x, y, init);
      StackShowsPush(Marking(x, y), init, last, [MARK]);
      MarkSays(x, y, last);
    }
  }

  lemma UpperViewed(x: Digest, y: Digest, s: seq<Digest>)
    requires x != y && Upper(x, y, s) != 0
    ensures M.Shows(View(Marking(x, y), s), [MARK]) == Some(M.Node(File(0, 0), Upper(x, y, s)))
  {
    var layers := Layered(Marking(x, y), s);
    UpperDecides(x, y, s);
    M.MergeIsFold(layers);
    UpperShows(x, y, s);
    var manifest := Marked(Upper(x, y, s));
    assert [MARK][1..] == [] && M.Merge(layers) == manifest;
    var file := MarkFile(Upper(x, y, s));
    assert manifest.entries[MARK] == file;
    assert !M.Leads(file, []) && M.Says(file, []).Gives?;
    M.ShownAt(layers, manifest, [MARK]);
  }

  /** The exact condition is the same for what is mounted. */
  lemma FirstsMountTheSameIff(s: seq<Digest>)
    ensures SameView(Firsts(s), s) <==> Firsts(s) == Lasts(s)
  {
    if Firsts(s) == Lasts(s) {
      forall content: Content
        ensures View(content, Firsts(s)) == View(content, s)
      {
        LastsMountTheSame(content, s);
      }
    } else {
      var x, y := Disagreement(Firsts(s), Lasts(s));
      LastsMountTheSame(Marking(x, y), s);
      UpperViewed(x, y, Firsts(s));
      UpperViewed(x, y, Lasts(s));
      assert View(Marking(x, y), Firsts(s)) != View(Marking(x, y), s);
    }
  }
}
