/**
  Layering manifests: `Entry::update` in `crates/spfs/src/tracking/entry.rs`, and what writing a
  merged manifest to the repository and reading it back does to it.

  An update keeps the entries below a path even when the path stops being a directory. Such
  leftovers cannot be seen, they are not written to the repository, and they come back when a
  later layer makes the path a directory again.
 */
module Overlay {
  import opened Graph

  datatype Kind = Tree | File(size: nat, contents: Digest) | Mask

  datatype Entry = Entry(kind: Kind, mode: nat, entries: map<string, Entry>)

  /** Octal 0040777: a directory with open permissions. */
  const OPEN_DIR_MODE: nat := 0x41FF

  const EMPTY: Entry := Entry(Tree, OPEN_DIR_MODE, map[])

  function Update(a: Entry, b: Entry): Entry
    decreases b
  {
    if !b.kind.Tree? then Entry(b.kind, b.mode, a.entries)
    else Entry(Tree, b.mode, map n | n in a.entries.Keys + b.entries.Keys :: UpdateName(a.entries, b, n))
  }

  /** What an update leaves under one name; a mask removes what was there. */
  function UpdateName(below: map<string, Entry>, b: Entry, n: string): Entry
    requires n in below.Keys + b.entries.Keys
    decreases b, 0
  {
    if n !in b.entries then below[n]
    else if n in below && !b.entries[n].kind.Mask? then Update(below[n], b.entries[n])
    else b.entries[n]
  }

  lemma UpdateAt(a: Entry, b: Entry, n: string)
    requires b.kind.Tree? && (n in a.entries || n in b.entries)
    ensures n in Update(a, b).entries
    ensures Update(a, b).entries[n] ==
            if n !in b.entries then a.entries[n]
            else if n in a.entries && !b.entries[n].kind.Mask? then Update(a.entries[n], b.entries[n])
            else b.entries[n]
  {
    assert Update(a, b).entries[n] == UpdateName(a.entries, b, n);
  }

  /** The loop over the entries of the upper layer, in any order. */
  method UpdateEntry(a: Entry, b: Entry) returns (r: Entry)
    ensures r == Update(a, b)
    decreases b
  {
    r := Entry(b.kind, b.mode, a.entries);
    if !b.kind.Tree? {
      return;
    }
    var entries := a.entries;
    var todo := b.entries.Keys;
    while todo != {}
      invariant todo <= b.entries.Keys
      invariant entries.Keys == a.entries.Keys + (b.entries.Keys - todo)
      invariant forall n :: n in entries ==>
                  entries[n] == if n in todo then a.entries[n] else UpdateName(a.entries, b, n)
    {
      var n :| n in todo;
      var node := b.entries[n];
      if node.kind.Mask? {
        entries := entries - {n};
      }
      if n in entries {
        var merged := UpdateEntry(entries[n], node);
        entries := entries[n := merged];
      } else {
        entries := entries[n := node];
      }
      todo := todo - {n};
    }
    r := Entry(Tree, b.mode, entries);
    assert entries == Update(a, b).entries;
  }

  // ----- What can be seen, and what is stored -----

  /** The entry without its leftovers: only directories have entries below them. */
  function Visible(e: Entry): Entry {
    if e.kind.Tree? then Entry(Tree, e.mode, map n | n in e.entries :: Visible(e.entries[n]))
    else Entry(e.kind, e.mode, map[])
  }

  /** A manifest written as an object and read back; the mode of its root is not recorded. */
  function Stored(root: Entry): Entry {
    Entry(Tree, OPEN_DIR_MODE, map n | n in root.entries :: Visible(root.entries[n]))
  }

  predicate NoLeftovers(e: Entry) {
    && (!e.kind.Tree? ==> e.entries == map[])
    && forall n :: n in e.entries ==> NoLeftovers(e.entries[n])
  }

  /** A manifest as it is read from a repository. */
  predicate IsManifest(e: Entry) {
    e.kind.Tree? && e.mode == OPEN_DIR_MODE && NoLeftovers(e)
  }

  predicate AreManifests(ms: seq<Entry>) {
    forall i :: 0 <= i < |ms| ==> IsManifest(ms[i])
  }

  lemma {:induction false} VisibleIsWhole(e: Entry)
    ensures NoLeftovers(Visible(e))
    ensures NoLeftovers(e) <==> Visible(e) == e
  {
    if e.kind.Tree? {
      forall n | n in e.entries
        ensures NoLeftovers(Visible(e.entries[n]))
        ensures NoLeftovers(e.entries[n]) <==> Visible(e.entries[n]) == e.entries[n]
      {
        VisibleIsWhole(e.entries[n]);
      }
      if NoLeftovers(e) {
        assert Visible(e).entries == e.entries;
      } else {
        var n :| n in e.entries && !NoLeftovers(e.entries[n]);
        assert Visible(e).entries[n] != e.entries[n];
      }
    }
  }

  /**
    The upper layer turns a directory with entries into something else, somewhere.
   */
  predicate Shadows(a: Entry, b: Entry)
    decreases b
  {
    if !b.kind.Tree? then a.entries != map[]
    else exists n :: n in b.entries && n in a.entries && !b.entries[n].kind.Mask? && Shadows(a.entries[n], b.entries[n])
  }

  /** An update produces leftovers exactly when it shadows a directory that has entries. */
  lemma {:induction false} UpdateLeavesOver(a: Entry, b: Entry)
    requires NoLeftovers(a) && NoLeftovers(b)
    ensures NoLeftovers(Update(a, b)) <==> !Shadows(a, b)
    decreases b
  {
    if b.kind.Tree? {
      var u := Update(a, b);
      forall n | n in b.entries && n in a.entries && !b.entries[n].kind.Mask?
        ensures NoLeftovers(u.entries[n]) <==> !Shadows(a.entries[n], b.entries[n])
      {
        UpdateAt(a, b, n);
        UpdateLeavesOver(a.entries[n], b.entries[n]);
      }
      if Shadows(a, b) {
        var n :| n in b.entries && n in a.entries && !b.entries[n].kind.Mask? && Shadows(a.entries[n], b.entries[n]);
        assert !NoLeftovers(u.entries[n]);
      }
    }
  }

  lemma StoredIsVisible(merge: Entry)
    requires merge.kind.Tree? && merge.mode == OPEN_DIR_MODE
    ensures Stored(merge) == Visible(merge)
  {
  }

  lemma OnEmpty(m: Entry)
    requires m.kind.Tree?
    ensures Update(EMPTY, m) == m
  {
  }

  /** On something without entries, a layer leaves exactly its own. */
  lemma EntriesOnNothing(x: Entry, b: Entry)
    requires x.entries == map[] && NoLeftovers(b)
    ensures Update(x, b) == b
  {
  }

  lemma TreeUpdate(x: Entry, b: Entry)
    requires b.kind.Tree?
    ensures var u := Update(x, b);
            u.kind.Tree? && u.mode == b.mode && u.entries.Keys == x.entries.Keys + b.entries.Keys
  {
  }

  /** The entries of an update depend only on the entries below. */
  lemma SameEntries(x: Entry, y: Entry, b: Entry)
    requires x.entries == y.entries
    ensures Update(x, b) == Update(y, b)
  {
  }

  // ----- When updating is associative -----

  function Dir(entries: map<string, Entry>): Entry { Entry(Tree, OPEN_DIR_MODE, entries) }

  const MASK: Entry := Entry(Mask, 0x1FF, map[])

  /** Everything that the directory `b` holds is in `a` already, the same. */
  predicate AddsNothing(a: Entry, b: Entry)
    decreases b, 0
  {
    forall n :: n in b.entries ==> n in a.entries && Repeats(a.entries[n], b.entries[n])
  }

  predicate Repeats(a: Entry, b: Entry)
    decreases b, 1
  {
    if b.kind.Mask? then a == b
    else a.kind == b.kind && a.mode == b.mode && (b.kind.Tree? ==> AddsNothing(a, b))
  }

  /** Nothing of `a` can be seen or is left over below `c`. */
  predicate ShutsOut(c: Entry, a: Entry)
    decreases c
  {
    if !c.kind.Tree? then a.entries == map[]
    else forall n :: n in a.entries ==>
      n in c.entries && (c.entries[n].kind.Mask? || ShutsOut(c.entries[n], a.entries[n]))
  }

  /**
    Path by path: no file of `c` shadows a directory of `b` that adds something to `a`, and
    nothing that `b` masks shows through where `c` gives the path again.
   */
  predicate Associates(a: Entry, b: Entry, c: Entry)
    decreases c
  {
    b.kind.Tree? ==>
      if !c.kind.Tree? then AddsNothing(a, b)
      else forall n :: n in a.entries && n in b.entries && n in c.entries && !c.entries[n].kind.Mask? ==>
        if b.entries[n].kind.Mask? then ShutsOut(c.entries[n], a.entries[n])
        else Associates(a.entries[n], b.entries[n], c.entries[n])
  }

  lemma {:induction false} RepeatsIff(a: Entry, b: Entry)
    requires NoLeftovers(b) && !b.kind.Mask?
    ensures Update(a, b) == a <==> Repeats(a, b)
    decreases b, 1
  {
    if b.kind.Tree? {
      AddsNothingIff(a, b);
    }
  }

  lemma {:induction false} AddsNothingIff(a: Entry, b: Entry)
    requires NoLeftovers(b) && b.kind.Tree?
    ensures Update(a, b).entries == a.entries <==> AddsNothing(a, b)
    decreases b, 0
  {
    var u := Update(a, b);
    forall n | n in u.entries
      ensures n !in b.entries ==> u.entries[n] == a.entries[n]
      ensures n in b.entries && n in a.entries ==>
                (u.entries[n] == a.entries[n] <==> Repeats(a.entries[n], b.entries[n]))
    {
      UpdateAt(a, b, n);
      if n in b.entries && n in a.entries {
        if !b.entries[n].kind.Mask? {
          RepeatsIff(a.entries[n], b.entries[n]);
        }
      }
    }
    if AddsNothing(a, b) {
      assert u.entries == a.entries;
    } else {
      var n :| n in b.entries && !(n in a.entries && Repeats(a.entries[n], b.entries[n]));
      assert n in u.entries;
    }
  }

  lemma {:induction false} ShutsOutIff(c: Entry, a: Entry)
    requires NoLeftovers(c) && !c.kind.Mask?
    ensures Update(a, c) == c <==> ShutsOut(c, a)
    decreases c
  {
    if c.kind.Tree? {
      var u := Update(a, c);
      forall n | n in u.entries && n in c.entries
        ensures n !in a.entries || c.entries[n].kind.Mask? ==> u.entries[n] == c.entries[n]
        ensures n in a.entries && !c.entries[n].kind.Mask? ==>
                  (u.entries[n] == c.entries[n] <==> ShutsOut(c.entries[n], a.entries[n]))
      {
        UpdateAt(a, c, n);
        if n in a.entries && !c.entries[n].kind.Mask? {
          ShutsOutIff(c.entries[n], a.entries[n]);
        }
      }
      if ShutsOut(c, a) {
        assert u.entries == c.entries;
      } else {
        var n :| n in a.entries
          && !(n in c.entries && (c.entries[n].kind.Mask? || ShutsOut(c.entries[n], a.entries[n])));
        assert n in u.entries;
      }
    }
  }

  /** What both groupings leave under one name, where the middle and the upper layer are directories. */
  lemma {:induction false} AssociatesAt(a: Entry, b: Entry, c: Entry, n: string)
    requires NoLeftovers(b) && NoLeftovers(c) && b.kind.Tree? && c.kind.Tree?
    requires n in a.entries.Keys + b.entries.Keys + c.entries.Keys
    ensures var l, r := Update(Update(a, b), c), Update(a, Update(b, c));
            && n in l.entries && n in r.entries
            && (l.entries[n] == r.entries[n] <==>
                  (n in a.entries && n in b.entries && n in c.entries && !c.entries[n].kind.Mask? ==>
                     if b.entries[n].kind.Mask? then ShutsOut(c.entries[n], a.entries[n])
                     else Associates(a.entries[n], b.entries[n], c.entries[n])))
    decreases c, 0
  {
    TreeUpdate(a, b);
    TreeUpdate(b, c);
    TreeUpdate(Update(a, b), c);
    TreeUpdate(a, Update(b, c));
    if n in a.entries || n in b.entries {
      UpdateAt(a, b, n);
    }
    if n in b.entries || n in c.entries {
      UpdateAt(b, c, n);
    }
    UpdateAt(Update(a, b), c, n);
    UpdateAt(a, Update(b, c), n);
    if n in a.entries && n in b.entries && n in c.entries && !c.entries[n].kind.Mask? {
      if b.entries[n].kind.Mask? {
        EntriesOnNothing(b.entries[n], c.entries[n]);
        ShutsOutIff(c.entries[n], a.entries[n]);
      } else {
        UpdateAssociatesIff(a.entries[n], b.entries[n], c.entries[n]);
      }
    }
  }

  /** Which of two updates comes first makes no difference if and only if they associate path by path. */
  lemma {:induction false} UpdateAssociatesIff(a: Entry, b: Entry, c: Entry)
    requires NoLeftovers(b) && NoLeftovers(c) && !b.kind.Mask? && !c.kind.Mask?
    ensures Update(Update(a, b), c) == Update(a, Update(b, c)) <==> Associates(a, b, c)
    decreases c, 2
  {
    if !b.kind.Tree? {
      EntriesOnNothing(b, c);
      SameEntries(Update(a, b), a, c);
    } else if !c.kind.Tree? {
      AddsNothingIff(a, b);
    } else {
      TreesAssociate(a, b, c);
    }
  }

  lemma {:induction false} TreesAssociate(a: Entry, b: Entry, c: Entry)
    requires NoLeftovers(b) && NoLeftovers(c) && b.kind.Tree? && c.kind.Tree?
    ensures Update(Update(a, b), c) == Update(a, Update(b, c)) <==> Associates(a, b, c)
    decreases c, 1
  {
    hide Update, NoLeftovers, ShutsOut;
    var l, r := Update(Update(a, b), c), Update(a, Update(b, c));
    TreeUpdate(a, b);
    TreeUpdate(b, c);
    TreeUpdate(Update(a, b), c);
    TreeUpdate(a, Update(b, c));
    forall n | n in l.entries
      ensures n in r.entries
      ensures l.entries[n] == r.entries[n] <==>
              (n in a.entries && n in b.entries && n in c.entries && !c.entries[n].kind.Mask? ==>
                 if b.entries[n].kind.Mask? then ShutsOut(c.entries[n], a.entries[n])
                 else Associates(a.entries[n], b.entries[n], c.entries[n]))
    {
      AssociatesAt(a, b, c, n);
    }
    if Associates(a, b, c) {
      assert l.entries == r.entries;
    }
  }

  /** A mask in the middle layer works only from below. */
  lemma MaskDoesNotAssociate(file: Entry)
    requires file.kind.File?
    ensures var a, b, c := Dir(map["n" := Dir(map["x" := file])]), Dir(map["n" := MASK]), Dir(map["n" := Dir(map[])]);
            Update(Update(a, b), c) != Update(a, Update(b, c))
  {
    var a, b, c := Dir(map["n" := Dir(map["x" := file])]), Dir(map["n" := MASK]), Dir(map["n" := Dir(map[])]);
    assert NoLeftovers(MASK) && NoLeftovers(c.entries["n"]) && NoLeftovers(b) && NoLeftovers(c);
    assert "x" in a.entries["n"].entries && !ShutsOut(c.entries["n"], a.entries["n"]);
    UpdateAssociatesIff(a, b, c);
  }

  /** A file on top keeps what is left over of the bottom layer and drops what is of the middle one. */
  lemma FileDoesNotAssociate(file: Entry)
    requires file.kind.File? && file.entries == map[]
    ensures var a, b, c := Dir(map["n" := Dir(map[])]), Dir(map["n" := Dir(map["x" := file])]), Dir(map["n" := file]);
            Update(Update(a, b), c) != Update(a, Update(b, c))
  {
    var a, b, c := Dir(map["n" := Dir(map[])]), Dir(map["n" := Dir(map["x" := file])]), Dir(map["n" := file]);
    assert NoLeftovers(file) && NoLeftovers(b.entries["n"]) && NoLeftovers(b) && NoLeftovers(c);
    assert "x" in b.entries["n"].entries && !AddsNothing(a.entries["n"], b.entries["n"]);
    assert !Associates(a.entries["n"], b.entries["n"], c.entries["n"]);
    UpdateAssociatesIff(a, b, c);
  }
}
