/**
  The FUSE filesystem of `crates/spfs-vfs/src/fuse.rs`: the inode table built from a manifest,
  `lookup`, and reading a directory page by page.

  A listing is a manifest entry whose entries come in the iteration order of their hash map, which
  is the order in which they are numbered. The numbered entries are collected into a new hash map,
  so a directory may be read in any other order.
 */
module Fuse {
  import opened Graph
  import O = Overlay

  datatype Listing = Listing(kind: O.Kind, mode: nat, children: seq<Child>)
  datatype Child = Child(name: string, entry: Listing)

  /** An entry that carries its inode number, as stored in the table. */
  datatype Inode = Inode(kind: O.Kind, mode: nat, children: seq<Named>, ino: nat)
  datatype Named = Named(name: string, node: Inode)

  // ----- Numbering a tree -----

  function Size(e: Listing): nat { 1 + SizeAll(e.children) }

  function SizeAll(cs: seq<Child>): nat {
    if cs == [] then 0 else SizeAll(cs[..|cs| - 1]) + Size(cs[|cs| - 1].entry)
  }

  /** The entry with its numbers, the root taking `start` and the children following in order. */
  function Numbered(e: Listing, start: nat): Inode {
    Inode(e.kind, e.mode, NumberedAll(e.children, start + 1), start)
  }

  function NumberedAll(cs: seq<Child>, start: nat): (ns: seq<Named>)
    ensures |ns| == |cs|
  {
    if cs == [] then []
    else
      var init, last := cs[..|cs| - 1], cs[|cs| - 1];
      NumberedAll(init, start) + [Named(last.name, Numbered(last.entry, start + SizeAll(init)))]
  }

  type Table = map<nat, Inode>

  function TableOf(n: Inode): Table {
    TableOfAll(n.children)[n.ino := n]
  }

  function TableOfAll(ns: seq<Named>): Table {
    if ns == [] then map[] else TableOfAll(ns[..|ns| - 1]) + TableOf(ns[|ns| - 1].node)
  }

  lemma ExtendNumbering(cs: seq<Child>, i: nat, start: nat)
    requires i < |cs|
    ensures SizeAll(cs[..i + 1]) == SizeAll(cs[..i]) + Size(cs[i].entry)
    ensures NumberedAll(cs[..i + 1], start)
         == NumberedAll(cs[..i], start) + [Named(cs[i].name, Numbered(cs[i].entry, start + SizeAll(cs[..i])))]
  {
    assert cs[..i + 1][..i] == cs[..i];
  }

  lemma ExtendTable(below: Table, ns: seq<Named>, n: Named)
    ensures below + TableOfAll(ns) + TableOf(n.node) == below + TableOfAll(ns + [n])
  {
    assert (ns + [n])[..|ns|] == ns;
    assert TableOfAll(ns + [n]) == TableOfAll(ns) + TableOf(n.node);
    hide TableOf, TableOfAll;
    AddedInTurn(below, TableOfAll(ns), TableOf(n.node));
  }

  lemma AddedInTurn(a: Table, b: Table, c: Table)
    ensures a + b + c == a + (b + c)
  {
  }

  lemma PutRoot(below: Table, n: Inode)
    ensures (below + TableOfAll(n.children))[n.ino := n] == below + TableOf(n)
  {
  }

  const S_IFDIR: bv32 := 0x4000

  function RootMode(mode: bv32): bv32 { mode | S_IFDIR }

  /** A directory, with the other bits as they are given. */
  lemma RootModeBits(mode: bv32)
    ensures RootMode(mode) & 0x4000 == 0x4000
    ensures RootMode(mode) & 0xffffbfff == mode & 0xffffbfff
  {
  }

  class Filesystem {
    var nextInode: nat
    var inodes: Table

    /** Number the whole manifest from inode 1; the mode of the root comes from the options. */
    constructor (manifest: Listing, rootMode: bv32)
      ensures var root := manifest.(mode := RootMode(rootMode) as nat);
              inodes == TableOf(Numbered(root, 1)) && nextInode == 1 + Size(root)
      ensures 1 in inodes && inodes[1].kind == manifest.kind && inodes[1].mode == RootMode(rootMode) as nat
    {
      nextInode, inodes := 1, map[];
      new;
      var root := manifest.(mode := RootMode(rootMode) as nat);
      var node := AllocateInodes(root);
    }

    method AllocateInode() returns (ino: nat)
      modifies this`nextInode
      ensures ino == old(nextInode) && nextInode == old(nextInode) + 1
    {
      ino := nextInode;
      nextInode := nextInode + 1;
    }

    method AllocateInodes(e: Listing) returns (node: Inode)
      modifies this
      ensures node == Numbered(e, old(nextInode))
      ensures nextInode == old(nextInode) + Size(e)
      ensures inodes == old(inodes) + TableOf(node)
      decreases e, 1
    {
      var ino := AllocateInode();
      var children := AllocateChildren(e.children);
      node := Inode(e.kind, e.mode, children, ino);
      PutRoot(old(inodes), node);
      inodes := inodes[ino := node];
    }

    method AllocateChildren(cs: seq<Child>) returns (children: seq<Named>)
      modifies this
      ensures children == NumberedAll(cs, old(nextInode))
      ensures nextInode == old(nextInode) + SizeAll(cs)
      ensures inodes == old(inodes) + TableOfAll(children)
      decreases cs, 0
    {
      children := [];
      for i := 0 to |cs|
        invariant children == NumberedAll(cs[..i], old(nextInode))
        invariant nextInode == old(nextInode) + SizeAll(cs[..i])
        invariant inodes == old(inodes) + TableOfAll(children)
      {
        ExtendNumbering(cs, i, old(nextInode));
        var child := AllocateInodes(cs[i].entry);
        ExtendTable(old(inodes), children, Named(cs[i].name, child));
        children := children + [Named(cs[i].name, child)];
      }
      assert cs[..|cs|] == cs;
    }
  }

  // ----- The table agrees with the manifest -----

  function Erase(n: Inode): Listing {
    Listing(n.kind, n.mode, EraseAll(n.children))
  }

  function EraseAll(ns: seq<Named>): seq<Child> {
    if ns == [] then []
    else EraseAll(ns[..|ns| - 1]) + [Child(ns[|ns| - 1].name, Erase(ns[|ns| - 1].node))]
  }

  lemma {:induction false} EraseNumbered(e: Listing, start: nat)
    ensures Erase(Numbered(e, start)) == e
    decreases e, 1
  {
    EraseNumberedAll(e.children, start + 1);
  }

  lemma {:induction false} EraseNumberedAll(cs: seq<Child>, start: nat)
    ensures EraseAll(NumberedAll(cs, start)) == cs
    decreases cs, 0
  {
    if cs != [] {
      var init, last := cs[..|cs| - 1], cs[|cs| - 1];
      EraseNumberedAll(init, start);
      EraseNumbered(last.entry, start + SizeAll(init));
      var ns := NumberedAll(cs, start);
      assert ns[..|ns| - 1] == NumberedAll(init, start);
      assert cs == init + [last];
    }
  }

  /** Every number of the range is used, by the inode that carries it, and no other is. */
  ghost predicate Numbers(table: Table, from: nat, to: nat) {
    && (forall i: nat :: i in table <==> from <= i < to)
    && (forall i :: i in table ==> table[i].ino == i)
  }

  lemma {:induction false} TableNumbers(e: Listing, start: nat)
    ensures Numbers(TableOf(Numbered(e, start)), start, start + Size(e))
    decreases e, 1
  {
    TableNumbersAll(e.children, start + 1);
  }

  lemma {:induction false} TableNumbersAll(cs: seq<Child>, start: nat)
    ensures Numbers(TableOfAll(NumberedAll(cs, start)), start, start + SizeAll(cs))
    decreases cs, 0
  {
    if cs != [] {
      var init, last := cs[..|cs| - 1], cs[|cs| - 1];
      TableNumbersAll(init, start);
      TableNumbers(last.entry, start + SizeAll(init));
      var ns := NumberedAll(cs, start);
      assert ns[..|ns| - 1] == NumberedAll(init, start);
    }
  }

  predicate Contains(table: Table, part: Table) {
    forall i :: i in part ==> i in table && table[i] == part[i]
  }

  /** The k-th child keeps its name, and its whole table is part of the table of its siblings. */
  lemma {:induction false} ChildTable(cs: seq<Child>, start: nat, k: nat)
    requires k < |cs|
    ensures var ns := NumberedAll(cs, start);
            && ns[k] == Named(cs[k].name, Numbered(cs[k].entry, start + SizeAll(cs[..k])))
            && Contains(TableOfAll(ns), TableOf(ns[k].node))
            && start <= ns[k].node.ino < start + SizeAll(cs)
    decreases |cs|
  {
    var init, last := cs[..|cs| - 1], cs[|cs| - 1];
    var ns := NumberedAll(cs, start);
    assert ns[..|ns| - 1] == NumberedAll(init, start);
    if k < |cs| - 1 {
      ChildTable(init, start, k);
      assert init[..k] == cs[..k];
      TableNumbersAll(init, start);
      TableNumbers(last.entry, start + SizeAll(init));
      TableNumbers(cs[k].entry, start + SizeAll(cs[..k]));
    }
  }

  // ----- Lookup -----

  datatype Errno = ENOENT | ENOTDIR
  datatype Reply = Found(ino: nat) | Error(errno: Errno)

  /** Where in a directory a name is. */
  function Find(names: seq<string>, name: string): (k: Option<nat>)
    ensures k.Some? ==> k.value < |names| && names[k.value] == name
    ensures k.None? ==> name !in names
  {
    if names == [] then None
    else
      var rest := Find(names[..|names| - 1], name);
      if rest.Some? then rest else if names[|names| - 1] == name then Some(|names| - 1) else None
  }

  function ChildNames(cs: seq<Child>): seq<string> {
    seq(|cs|, i requires 0 <= i < |cs| => cs[i].name)
  }

  function NodeNames(ns: seq<Named>): seq<string> {
    seq(|ns|, i requires 0 <= i < |ns| => ns[i].name)
  }

  function Lookup(inodes: Table, parent: nat, name: string): Reply {
    if parent !in inodes then Error(ENOENT)
    else
      var node := inodes[parent];
      match node.kind
      case File(_, _) => Error(ENOTDIR)
      case Mask => Error(ENOENT)
      case Tree =>
        var k := Find(NodeNames(node.children), name);
        if k.None? || node.children[k.value].node.kind.Mask? then Error(ENOENT)
        else Found(node.children[k.value].node.ino)
  }

  predicate DifferentNames(ns: seq<Named>) {
    forall j, k :: 0 <= j < k < |ns| ==> ns[j].name != ns[k].name
  }

  /**
    Not a directory exactly for a file; the inode of a child exactly for the name of one that is not a
    mask; and no such entry for everything else.
   */
  lemma LookupIs(inodes: Table, parent: nat, name: string)
    requires parent in inodes ==> DifferentNames(inodes[parent].children)
    ensures Lookup(inodes, parent, name) == Error(ENOTDIR) <==> parent in inodes && inodes[parent].kind.File?
    ensures Lookup(inodes, parent, name).Found? <==>
              && parent in inodes && inodes[parent].kind.Tree?
              && exists c :: c in inodes[parent].children && c.name == name && !c.node.kind.Mask?
    ensures forall c :: Lookup(inodes, parent, name).Found? && c in inodes[parent].children && c.name == name ==>
              Lookup(inodes, parent, name).ino == c.node.ino
  {
    if parent in inodes && inodes[parent].kind.Tree? {
      FindNamed(inodes[parent].children, name);
    }
  }

  lemma FindNamed(ns: seq<Named>, name: string)
    requires DifferentNames(ns)
    ensures var k := Find(NodeNames(ns), name);
            && (k.Some? ==> ns[k.value] in ns && ns[k.value].name == name)
            && forall c :: c in ns && c.name == name ==> k.Some? && c == ns[k.value]
  {
    hide Find;
    var k := Find(NodeNames(ns), name);
    forall c | c in ns && c.name == name
      ensures k.Some? && c == ns[k.value]
    {
      var j :| 0 <= j < |ns| && ns[j] == c;
      assert NodeNames(ns)[j] == name;
    }
  }

  /** Look up the steps of a path one after the other. */
  function LookupPath(inodes: Table, from: nat, path: seq<string>): Reply
    decreases |path|
  {
    if path == [] then Found(from)
    else
      var first := Lookup(inodes, from, path[0]);
      if first.Error? then first else LookupPath(inodes, first.ino, path[1..])
  }

  /** The entry of the manifest at a path, as long as every step is a directory and nothing is masked. */
  function EntryAt(e: Listing, path: seq<string>): Option<Listing>
    decreases |path|
  {
    if path == [] then Some(e)
    else if !e.kind.Tree? then None
    else
      var k := Find(ChildNames(e.children), path[0]);
      if k.None? || e.children[k.value].entry.kind.Mask? then None
      else EntryAt(e.children[k.value].entry, path[1..])
  }

  lemma {:induction false} NamesStay(cs: seq<Child>, start: nat)
    ensures NodeNames(NumberedAll(cs, start)) == ChildNames(cs)
    decreases |cs|
  {
    if cs != [] {
      NamesStay(cs[..|cs| - 1], start);
      assert forall i :: 0 <= i < |cs| - 1 ==> ChildNames(cs[..|cs| - 1])[i] == cs[i].name;
      assert forall i :: 0 <= i < |cs| - 1 ==>
               NodeNames(NumberedAll(cs[..|cs| - 1], start))[i] == NumberedAll(cs, start)[i].name;
    }
  }

  /**
    Following lookups from an inode reaches an inode exactly when the manifest has an unmasked
    entry at that path, and the table then holds that entry under that number.
   */
  lemma {:induction false} LookupAgrees(inodes: Table, e: Listing, start: nat, path: seq<string>)
    requires Contains(inodes, TableOf(Numbered(e, start)))
    ensures var r, at := LookupPath(inodes, start, path), EntryAt(e, path);
            && (r.Found? <==> at.Some?)
            && (r.Found? ==> r.ino in inodes && inodes[r.ino].ino == r.ino && Erase(inodes[r.ino]) == at.value)
    decreases |path|
  {
    var node := Numbered(e, start);
    assert inodes[start] == TableOf(node)[start] == node;
    EraseNumbered(e, start);
    if path != [] && e.kind.Tree? {
      NamesStay(e.children, start + 1);
      var k := Find(ChildNames(e.children), path[0]);
      if k.Some? {
        ChildContained(inodes, e, start, k.value);
        LookupAgrees(inodes, e.children[k.value].entry, node.children[k.value].node.ino, path[1..]);
      }
    }
  }

  lemma ChildrenContained(inodes: Table, node: Inode)
    requires Contains(inodes, TableOf(node)) && node.ino !in TableOfAll(node.children)
    ensures Contains(inodes, TableOfAll(node.children))
  {
    assert forall i :: i in TableOfAll(node.children) ==> TableOf(node)[i] == TableOfAll(node.children)[i];
  }

  lemma ChildContained(inodes: Table, e: Listing, start: nat, k: nat)
    requires Contains(inodes, TableOf(Numbered(e, start))) && k < |e.children|
    ensures var child := Numbered(e, start).children[k].node;
            && child == Numbered(e.children[k].entry, child.ino)
            && Contains(inodes, TableOf(child))
  {
    hide TableOf, TableOfAll, NumberedAll, SizeAll;
    ChildTable(e.children, start + 1, k);
    TableNumbersAll(e.children, start + 1);
    ChildrenContained(inodes, Numbered(e, start));
  }

  /** The table of a mounted manifest: inodes 1 to n, the root at 1, and lookups that agree with it. */
  lemma MountedTableAgrees(root: Listing, path: seq<string>)
    ensures var inodes := TableOf(Numbered(root, 1));
            && Numbers(inodes, 1, 1 + Size(root))
            && Erase(inodes[1]) == root
            && (LookupPath(inodes, 1, path).Found? <==> EntryAt(root, path).Some?)
            && (LookupPath(inodes, 1, path).Found? ==>
                  var ino := LookupPath(inodes, 1, path).ino;
                  1 <= ino <= Size(root) && Erase(inodes[ino]) == EntryAt(root, path).value)
  {
    TableNumbers(root, 1);
    EraseNumbered(root, 1);
    LookupAgrees(TableOf(Numbered(root, 1)), root, 1, path);
  }

  // ----- Reading a directory page by page -----

  /** What a directory shows: its entries without the masks. */
  function Unmasked(ns: seq<Named>): seq<Named> {
    if ns == [] then [] else (if ns[0].node.kind.Mask? then [] else [ns[0]]) + Unmasked(ns[1..])
  }

  function TakeUpTo(ns: seq<Named>, n: nat): seq<Named> {
    if n < |ns| then ns[..n] else ns
  }

  /** What follows the entry with this inode number, and nothing if there is none. */
  function After(ns: seq<Named>, ino: nat): seq<Named> {
    if ns == [] then [] else if ns[0].node.ino == ino then ns[1..] else After(ns[1..], ino)
  }

  function Page(ns: seq<Named>, offset: nat, capacity: nat): seq<Named> {
    TakeUpTo(Unmasked(if offset == 0 then ns else After(ns, offset)), capacity)
  }

  /**
    One `readdir`. The offset is the inode number of the last entry of the previous page, zero
    for the first. The reply refuses an entry once it holds `capacity` entries.
   */
  method ReadDir(ns: seq<Named>, offset: nat, capacity: nat) returns (page: seq<Named>)
    ensures page == Page(ns, offset, capacity)
    ensures |page| <= capacity && forall n :: n in page ==> n in ns && !n.node.kind.Mask?
    ensures offset == 0 && |page| < capacity ==> forall n :: n in ns && !n.node.kind.Mask? ==> n in page
    ensures offset != 0 && (forall n :: n in ns ==> n.node.ino != offset) ==> page == []
  {
    var remaining := ns;
    if offset != 0 {
      var searching := true;
      while searching && remaining != []
        invariant searching ==> After(remaining, offset) == After(ns, offset)
        invariant !searching ==> remaining == After(ns, offset)
        decreases |remaining|
      {
        if remaining[0].node.ino == offset {
          searching := false;
        }
        remaining := remaining[1..];
      }
    }
    ghost var all := Unmasked(remaining);
    page := [];
    while remaining != []
      invariant page + Unmasked(remaining) == all && |page| <= capacity
      decreases |remaining|
    {
      var entry := remaining[0];
      remaining := remaining[1..];
      if entry.node.kind.Mask? {
        continue;
      }
      if |page| == capacity {
        break;
      }
      page := page + [entry];
    }
    assert page == TakeUpTo(all, capacity);
    UnmaskedHolds(if offset == 0 then ns else After(ns, offset));
    if offset != 0 {
      AfterIsPart(ns, offset);
    }
  }

  lemma {:induction false} UnmaskedHolds(ns: seq<Named>)
    ensures forall n :: n in Unmasked(ns) <==> n in ns && !n.node.kind.Mask?
  {
    if ns != [] {
      UnmaskedHolds(ns[1..]);
      assert forall n :: n in ns <==> n == ns[0] || n in ns[1..];
    }
  }

  lemma {:induction false} AfterIsPart(ns: seq<Named>, ino: nat)
    ensures forall n :: n in After(ns, ino) ==> n in ns
    ensures (forall n :: n in ns ==> n.node.ino != ino) ==> After(ns, ino) == []
  {
    if ns != [] && ns[0].node.ino != ino {
      AfterIsPart(ns[1..], ino);
    }
  }

  /** Offsets work: no two entries share an inode number, and none has the number zero. */
  predicate Distinct(ns: seq<Named>) {
    && (forall i :: 0 <= i < |ns| ==> ns[i].node.ino != 0)
    && (forall i, j :: 0 <= i < j < |ns| ==> ns[i].node.ino != ns[j].node.ino)
  }

  lemma {:induction false} AfterSplit(a: seq<Named>, n: Named, b: seq<Named>)
    requires forall i :: 0 <= i < |a| ==> a[i].node.ino != n.node.ino
    ensures After(a + [n] + b, n.node.ino) == b
  {
    if a == [] {
      assert (a + [n] + b)[1..] == b;
    } else {
      assert (a + [n] + b)[1..] == a[1..] + [n] + b;
      AfterSplit(a[1..], n, b);
    }
  }

  /** Where in the directory the first `k` entries that are shown end. */
  lemma {:induction false} ShownPrefix(ns: seq<Named>, k: nat) returns (m: nat)
    requires 0 < k <= |Unmasked(ns)|
    ensures 0 < m <= |ns| && ns[m - 1] == Unmasked(ns)[k - 1]
    ensures Unmasked(ns[m..]) == Unmasked(ns)[k..]
  {
    if ns[0].node.kind.Mask? {
      m := ShownPrefix(ns[1..], k);
      assert ns[1..][m..] == ns[m + 1..];
      m := m + 1;
    } else if k == 1 {
      m := 1;
    } else {
      m := ShownPrefix(ns[1..], k - 1);
      assert ns[1..][m..] == ns[m + 1..];
      m := m + 1;
    }
  }

  /** A page that resumes after the first `k` entries shown starts with the next one. */
  lemma PageResumes(ns: seq<Named>, k: nat, capacity: nat)
    requires Distinct(ns) && 0 < k <= |Unmasked(ns)|
    ensures Page(ns, Unmasked(ns)[k - 1].node.ino, capacity) == TakeUpTo(Unmasked(ns)[k..], capacity)
    ensures Unmasked(ns)[k - 1].node.ino != 0
  {
    hide Unmasked, After, TakeUpTo;
    var m := ShownPrefix(ns, k);
    assert ns == ns[..m - 1] + [ns[m - 1]] + ns[m..];
    AfterSplit(ns[..m - 1], ns[m - 1], ns[m..]);
  }

  /**
    Reading a directory to the end: for any capacities of at least one entry, resuming at the
    last entry returned and stopping at an empty page, every entry that is not a mask is
    returned exactly once and in order.
   */
  method ReadWholeDirectory(ns: seq<Named>) returns (listing: seq<Named>)
    requires Distinct(ns)
    ensures listing == Unmasked(ns)
  {
    listing := [];
    ghost var shown, k := Unmasked(ns), 0;
    var offset := 0;
    while true
      invariant 0 <= k <= |shown| && listing == shown[..k]
      invariant offset == if k == 0 then 0 else shown[k - 1].node.ino
      decreases |shown| - k
    {
      var capacity: nat :| capacity > 0;
      var page := ReadDir(ns, offset, capacity);
      if k > 0 {
        PageResumes(ns, k, capacity);
      }
      NextPage(shown, k, page, capacity);
      if page == [] {
        break;
      }
      listing := listing + page;
      offset := page[|page| - 1].node.ino;
      k := k + |page|;
    }
  }

  /** The entries at these places, in this order, and no others, are shown. */
  predicate ShownAt(ns: seq<Named>, shown: seq<Named>, at: seq<nat>) {
    && |at| == |shown| && (forall k :: 0 <= k < |at| ==> at[k] < |ns| && shown[k] == ns[at[k]])
    && (forall j, k :: 0 <= j < k < |at| ==> at[j] < at[k])
    && (forall i :: 0 <= i < |ns| ==> (i in at <==> !ns[i].node.kind.Mask?))
  }

  lemma {:induction false} UnmaskedNext(ns: seq<Named>, last: Named)
    ensures Unmasked(ns + [last]) == Unmasked(ns) + (if last.node.kind.Mask? then [] else [last])
  {
    if ns == [] {
      assert ns + [last] == [last] && [last][1..] == [];
    } else {
      UnmaskedNext(ns[1..], last);
      assert (ns + [last])[1..] == ns[1..] + [last];
    }
  }

  lemma {:induction false} Places(ns: seq<Named>) returns (at: seq<nat>)
    ensures ShownAt(ns, Unmasked(ns), at)
  {
    at := [];
    if ns != [] {
      var init, last := ns[..|ns| - 1], ns[|ns| - 1];
      at := Places(init);
      UnmaskedNext(init, last);
      assert ns == init + [last];
      hide Unmasked;
      at := at + (if last.node.kind.Mask? then [] else [|ns| - 1]);
    }
  }

  /** What a directory shows: the entries that are not masks, in their order. */
  lemma ShownEntries(ns: seq<Named>) returns (at: seq<nat>)
    ensures |at| == |Unmasked(ns)| && forall k :: 0 <= k < |at| ==> at[k] < |ns| && Unmasked(ns)[k] == ns[at[k]]
    ensures forall j, k :: 0 <= j < k < |at| ==> at[j] < at[k]
    ensures forall i :: 0 <= i < |ns| ==> (i in at <==> !ns[i].node.kind.Mask?)
  {
    at := Places(ns);
    assert ShownAt(ns, Unmasked(ns), at);
    hide Unmasked;
  }

  lemma NextPage(shown: seq<Named>, k: nat, page: seq<Named>, capacity: nat)
    requires k <= |shown| && capacity > 0 && page == TakeUpTo(shown[k..], capacity)
    ensures k + |page| <= |shown| && shown[..k] + page == shown[..k + |page|]
    ensures page == [] ==> shown[..k] == shown
    ensures page != [] ==> page[|page| - 1] == shown[k + |page| - 1]
  {
  }

  lemma {:induction false} NumberedIsDistinct(cs: seq<Child>, start: nat)
    requires start > 0
    ensures Distinct(NumberedAll(cs, start))
    ensures forall i :: 0 <= i < |cs| ==> start <= NumberedAll(cs, start)[i].node.ino < start + SizeAll(cs)
    decreases |cs|
  {
    if cs != [] {
      NumberedIsDistinct(cs[..|cs| - 1], start);
    }
  }

  /** Everything in a table is numbered the same way as the root. */
  lemma {:induction false} TableIsNumbered(e: Listing, start: nat, i: nat)
    requires i in TableOf(Numbered(e, start))
    ensures var n := TableOf(Numbered(e, start))[i]; n == Numbered(Erase(n), n.ino) && start <= n.ino
    decreases e, 1
  {
    if i == start {
      EraseNumbered(e, start);
    } else {
      TableIsNumberedAll(e.children, start + 1, i);
    }
  }

  lemma {:induction false} TableIsNumberedAll(cs: seq<Child>, start: nat, i: nat)
    requires i in TableOfAll(NumberedAll(cs, start))
    ensures var n := TableOfAll(NumberedAll(cs, start))[i]; n == Numbered(Erase(n), n.ino) && start <= n.ino
    decreases cs, 0
  {
    var init, last := cs[..|cs| - 1], cs[|cs| - 1];
    var ns := NumberedAll(cs, start);
    assert ns[..|ns| - 1] == NumberedAll(init, start);
    if i in TableOf(ns[|ns| - 1].node) {
      TableIsNumbered(last.entry, start + SizeAll(init), i);
    } else {
      TableIsNumberedAll(init, start, i);
    }
  }

  /** The same entries in some other order. */
  predicate Reorders(listed: seq<Named>, children: seq<Named>) {
    multiset(listed) == multiset(children)
  }

  lemma {:induction false} NoneTwice(ns: seq<Named>, n: Named)
    requires Distinct(ns)
    ensures multiset(ns)[n] <= 1
  {
    if ns != [] {
      var init, last := ns[..|ns| - 1], ns[|ns| - 1];
      assert ns == init + [last];
      NoneTwice(init, n);
      assert forall i :: 0 <= i < |init| ==> init[i] != last;
    }
  }

  lemma TwiceCounts(ns: seq<Named>, i: nat, j: nat)
    requires i < j < |ns| && ns[i] == ns[j]
    ensures multiset(ns)[ns[i]] >= 2
  {
    assert ns == ns[..j] + ([ns[j]] + ns[j + 1..]);
    assert ns[i] in ns[..j];
    assert multiset(ns) == multiset(ns[..j]) + multiset([ns[j]]) + multiset(ns[j + 1..]);
  }

  lemma ReorderedIsDistinct(listed: seq<Named>, children: seq<Named>)
    requires Distinct(children) && Reorders(listed, children)
    ensures Distinct(listed)
  {
    forall i | 0 <= i < |listed|
      ensures listed[i] in children
    {
      assert listed[i] in multiset(children);
    }
    forall i, j | 0 <= i < j < |listed|
      ensures listed[i].node.ino != listed[j].node.ino
    {
      if listed[i] == listed[j] {
        TwiceCounts(listed, i, j);
        NoneTwice(children, listed[i]);
      } else {
        var a :| 0 <= a < |children| && children[a] == listed[i];
        var b :| 0 <= b < |children| && children[b] == listed[j];
      }
    }
  }

  /** The offsets of every directory of a mounted table work, in whatever order it is listed. */
  lemma MountedDirectoriesAreDistinct(root: Listing, i: nat, listed: seq<Named>)
    requires i in TableOf(Numbered(root, 1)) && Reorders(listed, TableOf(Numbered(root, 1))[i].children)
    ensures Distinct(listed)
  {
    TableIsNumbered(root, 1, i);
    var n := TableOf(Numbered(root, 1))[i];
    NumberedIsDistinct(Erase(n).children, n.ino + 1);
    ReorderedIsDistinct(listed, n.children);
  }
}
