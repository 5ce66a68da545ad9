/**
  Who is to wait for what, when everybody goes through a list of its own and waits for the first digest
  that nobody else has claimed. If it is possible at all that everybody waits for another one, then in
  some order of turns everybody does: those who would rather have what others are to get trade with them.
 */
module Trading {
  import opened Graph

  /** The first digest of the list that nobody has claimed. */
  function FirstFree(list: seq<Digest>, claimed: set<Digest>): (free: Option<Digest>)
    ensures free.Some? ==> free.value in list && free.value !in claimed
    ensures forall x :: x in list && x !in claimed ==> free.Some?
  {
    if list == [] then None else if list[0] !in claimed then Some(list[0]) else FirstFree(list[1..], claimed)
  }

  /** Everybody is to wait for an unclaimed digest of its list, and no two for the same. */
  predicate Matching(lists: map<Digest, seq<Digest>>, claimed: set<Digest>, next: map<Digest, Digest>) {
    && lists.Keys <= next.Keys
    && (forall d :: d in lists ==> next[d] in lists[d] && next[d] !in claimed)
    && (forall d, e :: d in lists && e in lists && d != e ==> next[d] != next[e])
  }

  /** Everybody on the path would rather wait for what the following one is to wait for. */
  predicate Envies(lists: map<Digest, seq<Digest>>, claimed: set<Digest>, next: map<Digest, Digest>, path: seq<Digest>)
    requires lists.Keys <= next.Keys
  {
    && (forall i :: 0 <= i < |path| ==> path[i] in lists)
    && (forall i, j :: 0 <= i < j < |path| ==> path[i] != path[j])
    && (forall i :: 0 <= i < |path| - 1 ==> FirstFree(lists[path[i]], claimed) == Some(next[path[i + 1]]))
  }

  function Following(n: nat, j: nat): (k: nat)
    requires j < n
    ensures k < n
  {
    if j == n - 1 then 0 else j + 1
  }

  /** Everybody on the circle gets what the following one had, and everybody else keeps what it had. */
  predicate Traded(next: map<Digest, Digest>, traded: map<Digest, Digest>, circle: seq<Digest>) {
    && traded.Keys == next.Keys
    && (forall j :: 0 <= j < |circle| ==> circle[j] in next)
    && (forall i, j :: 0 <= i < j < |circle| ==> circle[i] != circle[j])
    && (forall j :: 0 <= j < |circle| ==> traded[circle[j]] == next[circle[Following(|circle|, j)]])
    && (forall x :: x in next && x !in circle ==> traded[x] == next[x])
  }

  /** Who had what `d` has got. */
  lemma GetsFrom(next: map<Digest, Digest>, traded: map<Digest, Digest>, circle: seq<Digest>, d: Digest)
    returns (from: Digest)
    requires Traded(next, traded, circle) && d in next
    ensures from in next && traded[d] == next[from] && Giver(circle, d, from)
  {
    from := d;
    if d in circle {
      var j :| 0 <= j < |circle| && circle[j] == d;
      from := circle[Following(|circle|, j)];
    }
  }

  predicate Giver(circle: seq<Digest>, d: Digest, from: Digest) {
    if d in circle then exists j :: 0 <= j < |circle| && circle[j] == d && from == circle[Following(|circle|, j)]
    else from == d
  }

  lemma OneGiverEach(circle: seq<Digest>, d: Digest, e: Digest, from: Digest)
    requires forall i, j :: 0 <= i < j < |circle| ==> circle[i] != circle[j]
    requires Giver(circle, d, from) && Giver(circle, e, from)
    ensures d == e
  {
    if d in circle && e in circle {
      var j :| 0 <= j < |circle| && circle[j] == d && from == circle[Following(|circle|, j)];
      var k :| 0 <= k < |circle| && circle[k] == e && from == circle[Following(|circle|, k)];
      assert Following(|circle|, j) == Following(|circle|, k);
    }
  }

  lemma TradedDiffer(lists: map<Digest, seq<Digest>>, claimed: set<Digest>, next: map<Digest, Digest>,
                     traded: map<Digest, Digest>, circle: seq<Digest>, d: Digest, e: Digest)
    requires Matching(lists, claimed, next) && Traded(next, traded, circle) && (forall x :: x in circle ==> x in lists)
    requires d in lists && e in lists && d != e
    ensures traded[d] != traded[e]
  {
    var from := GetsFrom(next, traded, circle, d);
    var other := GetsFrom(next, traded, circle, e);
    assert from in lists && other in lists by {
      hide Traded, Matching;
    }
    if from == other {
      OneGiverEach(circle, d, e, from);
    }
  }

  /** Everybody on a circle of envy gets what it would rather wait for. */
  lemma Rotate(lists: map<Digest, seq<Digest>>, claimed: set<Digest>, next: map<Digest, Digest>, circle: seq<Digest>)
    returns (traded: map<Digest, Digest>)
    requires Matching(lists, claimed, next) && circle != [] && Envies(lists, claimed, next, circle)
    requires FirstFree(lists[circle[|circle| - 1]], claimed) == Some(next[circle[0]])
    ensures Matching(lists, claimed, traded)
    ensures FirstFree(lists[circle[0]], claimed) == Some(traded[circle[0]]) && traded.Keys == next.Keys
  {
    traded := map d | d in next ::
      if d in circle && FirstFree(lists[d], claimed).Some? then FirstFree(lists[d], claimed).value else next[d];
    forall j | 0 <= j < |circle|
      ensures traded[circle[j]] == next[circle[Following(|circle|, j)]]
    {
      assert j < |circle| - 1 ==> FirstFree(lists[circle[j]], claimed) == Some(next[circle[j + 1]]);
    }
    assert Traded(next, traded, circle);
    forall d, e | d in lists && e in lists && d != e
      ensures traded[d] != traded[e]
    {
      TradedDiffer(lists, claimed, next, traded, circle, d, e);
    }
  }

  lemma EnviesFrom(lists: map<Digest, seq<Digest>>, claimed: set<Digest>, next: map<Digest, Digest>, path: seq<Digest>,
                   i: nat)
    requires lists.Keys <= next.Keys && Envies(lists, claimed, next, path) && i < |path|
    ensures Envies(lists, claimed, next, path[i..])
  {
    hide FirstFree;
    var rest := path[i..];
    forall k | 0 <= k < |rest| - 1
      ensures FirstFree(lists[rest[k]], claimed) == Some(next[rest[k + 1]])
    {
      assert rest[k] == path[i + k] && rest[k + 1] == path[i + k + 1];
    }
  }

  lemma EnviesMore(lists: map<Digest, seq<Digest>>, claimed: set<Digest>, next: map<Digest, Digest>, path: seq<Digest>,
                   o: Digest)
    requires lists.Keys <= next.Keys && Envies(lists, claimed, next, path) && path != [] && o in lists && o !in path
    requires FirstFree(lists[path[|path| - 1]], claimed) == Some(next[o])
    ensures Envies(lists, claimed, next, path + [o])
  {
    hide FirstFree;
    var more := path + [o];
    forall k | 0 <= k < |more| - 1
      ensures FirstFree(lists[more[k]], claimed) == Some(next[more[k + 1]])
    {
      if k < |path| - 1 {
        assert more[k + 1] == path[k + 1];
      }
    }
  }

  lemma TakeFree(lists: map<Digest, seq<Digest>>, claimed: set<Digest>, next: map<Digest, Digest>, d: Digest,
                 free: Digest)
    requires Matching(lists, claimed, next) && d in lists && free in lists[d] && free !in claimed
    requires forall o :: o in lists ==> next[o] != free
    ensures Matching(lists, claimed, next[d := free])
  {
  }

  lemma FewerLeft(keys: set<Digest>, path: seq<Digest>, o: Digest)
    requires o in keys && o !in path
    ensures |keys - set x | x in path + [o]| < |keys - set x | x in path|
  {
    var before, after := keys - (set x | x in path), keys - (set x | x in path + [o]);
    assert after == before - {o} && o in before;
  }

  /** After trading along a circle of envy, somebody is to wait for the first free digest of its list. */
  lemma {:induction false} Trade(lists: map<Digest, seq<Digest>>, claimed: set<Digest>, next: map<Digest, Digest>,
                                 path: seq<Digest>)
    returns (d: Digest, traded: map<Digest, Digest>)
    requires Matching(lists, claimed, next) && path != [] && Envies(lists, claimed, next, path)
    ensures Matching(lists, claimed, traded) && d in lists && FirstFree(lists[d], claimed) == Some(traded[d])
    ensures traded.Keys == next.Keys
    decreases |lists.Keys - set x | x in path|
  {
    hide FirstFree;
    var last := path[|path| - 1];
    assert last in lists && next[last] in lists[last];
    var free := FirstFree(lists[last], claimed).value;
    if o :| o in lists && next[o] == free {
      if i :| 0 <= i < |path| && path[i] == o {
        EnviesFrom(lists, claimed, next, path, i);
        hide Envies, Matching;
        d := o;
        traded := Rotate(lists, claimed, next, path[i..]);
      } else {
        EnviesMore(lists, claimed, next, path, o);
        FewerLeft(lists.Keys, path, o);
        hide Envies, Matching;
        d, traded := Trade(lists, claimed, next, path + [o]);
      }
    } else {
      TakeFree(lists, claimed, next, last, free);
      hide Envies, Matching;
      d, traded := last, next[last := free];
    }
  }
}
