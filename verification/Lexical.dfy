/** Strings in their order, and lists kept sorted by a string key, as ordered maps are. */
module Lexical {

  predicate Less(a: string, b: string) {
    b != [] && (a == [] || a[0] < b[0] || (a[0] == b[0] && Less(a[1..], b[1..])))
  }

  lemma {:induction false} LessIrreflexive(a: string)
    ensures !Less(a, a)
  {
    if a != [] {
      LessIrreflexive(a[1..]);
    }
  }

  lemma {:induction false} LessTransitive(a: string, b: string, c: string)
    requires Less(a, b) && Less(b, c)
    ensures Less(a, c)
  {
    if a != [] && a[0] == b[0] && b[0] == c[0] {
      LessTransitive(a[1..], b[1..], c[1..]);
    }
  }

  lemma {:induction false} LessTotal(a: string, b: string)
    ensures a == b || Less(a, b) || Less(b, a)
  {
    if a != [] && b != [] && a[0] == b[0] {
      LessTotal(a[1..], b[1..]);
      assert a == [a[0]] + a[1..] && b == [b[0]] + b[1..];
    }
  }

  /** One is a proper start of the other, or is below it at the first place where they differ. */
  lemma {:induction false} LessIff(a: string, b: string)
    ensures Less(a, b) <==> exists n :: DecidedAt(a, b, n)
  {
    assert |b| > 0 && (a == [] || a[0] < b[0]) ==> DecidedAt(a, b, 0);
    if a != [] && b != [] && a[0] == b[0] {
      LessIff(a[1..], b[1..]);
      forall n: nat | DecidedAt(a[1..], b[1..], n)
        ensures DecidedAt(a, b, n + 1)
      {
        assert a[..n + 1] == [a[0]] + a[1..][..n] && b[..n + 1] == [b[0]] + b[1..][..n];
      }
      forall n: nat | DecidedAt(a, b, n)
        ensures n > 0 && DecidedAt(a[1..], b[1..], n - 1)
      {
        assert a[1..][..n - 1] == a[..n][1..] && b[1..][..n - 1] == b[..n][1..];
      }
    } else if a != [] && b != [] {
      forall n: nat | DecidedAt(a, b, n)
        ensures n == 0
      {
      }
    }
  }

  predicate DecidedAt(a: string, b: string, n: nat) {
    n <= |a| && n < |b| && a[..n] == b[..n] && (n == |a| || a[n] < b[n])
  }

  /** A list of keys with their values, the keys strictly increasing. */
  predicate Sorted<V>(list: seq<(string, V)>) {
    forall i, j :: 0 <= i < j < |list| ==> Less(list[i].0, list[j].0)
  }

  function ToMap<V>(list: seq<(string, V)>): map<string, V> {
    if list == [] then map[] else ToMap(list[1..])[list[0].0 := list[0].1]
  }

  /** Insert a key in its place, or replace the value that it has. */
  function Put<V>(list: seq<(string, V)>, k: string, v: V): seq<(string, V)> {
    if list == [] || Less(k, list[0].0) then [(k, v)] + list
    else if k == list[0].0 then [(k, v)] + list[1..]
    else [list[0]] + Put(list[1..], k, v)
  }

  lemma {:induction false} PutKeys<V>(list: seq<(string, V)>, k: string, v: V)
    ensures forall i :: 0 <= i < |Put(list, k, v)| ==>
              Put(list, k, v)[i] == (k, v) || exists j :: 0 <= j < |list| && list[j] == Put(list, k, v)[i]
  {
    if list != [] && !Less(k, list[0].0) && k != list[0].0 {
      PutKeys(list[1..], k, v);
      forall i | 0 <= i < |Put(list, k, v)|
        ensures Put(list, k, v)[i] == (k, v) || exists j :: 0 <= j < |list| && list[j] == Put(list, k, v)[i]
      {
        if i > 0 && Put(list, k, v)[i] != (k, v) {
          var j :| 0 <= j < |list[1..]| && list[1..][j] == Put(list[1..], k, v)[i - 1];
          assert list[j + 1] == Put(list, k, v)[i];
        }
      }
    }
  }

  lemma {:induction false} PutSorted<V>(list: seq<(string, V)>, k: string, v: V)
    requires Sorted(list)
    ensures Sorted(Put(list, k, v))
  {
    if list != [] {
      if Less(k, list[0].0) {
        forall j | 0 < j < |list|
          ensures Less(k, list[j].0)
        {
          LessTransitive(k, list[0].0, list[j].0);
        }
      } else if k != list[0].0 {
        LessTotal(k, list[0].0);
        PutSorted(list[1..], k, v);
        PutKeys(list[1..], k, v);
      }
    }
  }

  lemma {:induction false} PutMap<V>(list: seq<(string, V)>, k: string, v: V)
    ensures ToMap(Put(list, k, v)) == ToMap(list)[k := v]
  {
    if list == [] || Less(k, list[0].0) {
      assert ([(k, v)] + list)[1..] == list;
    } else if k == list[0].0 {
      assert ([(k, v)] + list[1..])[1..] == list[1..];
    } else {
      PutMap(list[1..], k, v);
      assert ([list[0]] + Put(list[1..], k, v))[1..] == Put(list[1..], k, v);
    }
  }

  lemma {:induction false} MapKeys<V>(list: seq<(string, V)>, k: string)
    ensures k in ToMap(list) <==> exists i :: 0 <= i < |list| && list[i].0 == k
  {
    if list != [] {
      MapKeys(list[1..], k);
      if k in ToMap(list[1..]) {
        var i :| 0 <= i < |list[1..]| && list[1..][i].0 == k;
        assert list[i + 1].0 == k;
      }
    }
  }

  /** The first key is below every other key. */
  lemma FirstIsLeast<V>(list: seq<(string, V)>, k: string)
    requires Sorted(list) && list != [] && k in ToMap(list)
    ensures k == list[0].0 || Less(list[0].0, k)
    ensures list[0].0 !in ToMap(list[1..])
  {
    MapKeys(list, k);
    MapKeys(list[1..], list[0].0);
    LessIrreflexive(list[0].0);
  }

  /** A sorted list is the listing of its map. */
  lemma {:induction false} MapHolds<V>(list: seq<(string, V)>, k: string, v: V)
    requires Sorted(list)
    ensures (k, v) in list <==> k in ToMap(list) && ToMap(list)[k] == v
  {
    if list != [] {
      MapHolds(list[1..], k, v);
      MapKeys(list[1..], list[0].0);
      LessIrreflexive(list[0].0);
      assert list == [list[0]] + list[1..];
    }
  }

  lemma EmptyMap<V>(list: seq<(string, V)>)
    ensures ToMap(list) == map[] <==> list == []
  {
    if list != [] {
      assert list[0].0 in ToMap(list);
    }
  }

  /** A map has one sorted listing. */
  lemma {:induction false} SortedUnique<V>(a: seq<(string, V)>, b: seq<(string, V)>)
    requires Sorted(a) && Sorted(b) && ToMap(a) == ToMap(b)
    ensures a == b
  {
    EmptyMap(a);
    EmptyMap(b);
    if a != [] {
      assert a[0].0 in ToMap(a) && b[0].0 in ToMap(b);
      FirstIsLeast(a, b[0].0);
      FirstIsLeast(b, a[0].0);
      if a[0].0 != b[0].0 {
        LessTransitive(a[0].0, b[0].0, a[0].0);
        LessIrreflexive(a[0].0);
        assert false;
      }
      assert ToMap(a)[a[0].0] == a[0].1 && ToMap(b)[b[0].0] == b[0].1;
      assert ToMap(a[1..]) == ToMap(a) - {a[0].0} == ToMap(b) - {b[0].0} == ToMap(b[1..]);
      SortedUnique(a[1..], b[1..]);
      assert a == [a[0]] + a[1..] && b == [b[0]] + b[1..];
    }
  }
}
