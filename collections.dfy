/**
 * The collection operations the handlers perform on stored documents and on
 * embedded arrays: lookup by a key (`findById`, `findOne`, `Array.find`),
 * keeping or dropping the elements with a given key (`find({field: v})`,
 * `Array.filter`), replacing a document in place (`findByIdAndUpdate`,
 * `save`) and sorting on a timestamp, newest first (`sort({createdAt: -1})`).
 * Keys are read through a total key function, so one definition serves
 * every record type.
 */
module Collections {
  import opened Basics

  /** The first element whose key is `k`, if any. */
  function Find<T(!new), K(==)>(s: seq<T>, key: T -> K, k: K): (r: Option<T>)
    ensures r.Some? ==> r.value in s && key(r.value) == k
    ensures r.None? <==> forall x :: x in s ==> key(x) != k
  {
    if s == [] then None
    else if key(s[0]) == k then Some(s[0])
    else Find(s[1..], key, k)
  }

  /** What `Find` returns is the first element with key `k`: no earlier element has it. */
  lemma {:induction false} FindFirst<T(!new), K>(s: seq<T>, key: T -> K, k: K)
    requires Find(s, key, k).Some?
    ensures exists i :: (0 <= i < |s| && s[i] == Find(s, key, k).value
                         && forall j :: 0 <= j < i ==> key(s[j]) != k)
  {
    if key(s[0]) == k {
      assert s[0] == Find(s, key, k).value;
    } else {
      FindFirst(s[1..], key, k);
      var i :| 0 <= i < |s[1..]| && s[1..][i] == Find(s, key, k).value
        && forall j :: 0 <= j < i ==> key(s[1..][j]) != k;
      forall j | 0 <= j < i + 1 ensures key(s[j]) != k {
        if j > 0 { assert s[j] == s[1..][j - 1]; }
      }
      assert s[i + 1] == Find(s, key, k).value;
    }
  }

  /** The elements whose key is `k`, in their original order. */
  function Select<T(!new), K(==)>(s: seq<T>, key: T -> K, k: K): (r: seq<T>)
    ensures |r| <= |s|
    ensures forall x :: x in r <==> x in s && key(x) == k
  {
    if s == [] then []
    else if key(s[0]) == k then [s[0]] + Select(s[1..], key, k)
    else Select(s[1..], key, k)
  }

  /** The elements whose key is not `k`, in their original order. */
  function Reject<T(!new), K(==)>(s: seq<T>, key: T -> K, k: K): (r: seq<T>)
    ensures |r| <= |s|
    ensures forall x :: x in r <==> x in s && key(x) != k
  {
    if s == [] then []
    else if key(s[0]) == k then Reject(s[1..], key, k)
    else [s[0]] + Reject(s[1..], key, k)
  }

  /** `s` with every element that shares `x`'s key replaced by `x`. */
  function Replace<T, K(==)>(s: seq<T>, key: T -> K, x: T): (r: seq<T>)
    ensures |r| == |s|
    ensures forall i :: 0 <= i < |s| ==> r[i] == (if key(s[i]) == key(x) then x else s[i])
  {
    seq(|s|, i requires 0 <= i < |s| => if key(s[i]) == key(x) then x else s[i])
  }

  /** No two elements share a key (ids of a collection, users of a team). */
  ghost predicate Unique<T, K>(s: seq<T>, key: T -> K) {
    forall i, j :: 0 <= i < j < |s| ==> key(s[i]) != key(s[j])
  }

  /** Every key is below `n` (so `n` is a fresh key). */
  ghost predicate KeysBelow<T>(s: seq<T>, key: T -> nat, n: nat) {
    forall x :: x in s ==> key(x) < n
  }

  /** `s` is ordered by `key`, largest first. */
  ghost predicate SortedDesc<T>(s: seq<T>, key: T -> int) {
    forall i, j :: 0 <= i < j < |s| ==> key(s[i]) >= key(s[j])
  }

  function InsertDesc<T>(x: T, s: seq<T>, key: T -> int): seq<T> {
    if s == [] || key(x) >= key(s[0]) then [x] + s
    else [s[0]] + InsertDesc(x, s[1..], key)
  }

  /**
   * Stable insertion sort, largest key first; elements with equal keys keep
   * their original order.
   */
  function SortDesc<T>(s: seq<T>, key: T -> int): seq<T> {
    if s == [] then [] else InsertDesc(s[0], SortDesc(s[1..], key), key)
  }

  // ---------------------------------------------------------------------
  // Lookup after an update of the collection

  lemma {:induction false} FindUnique<T(!new), K>(s: seq<T>, key: T -> K, x: T)
    requires Unique(s, key) && x in s
    ensures Find(s, key, key(x)) == Some(x)
  {
    if s[0] != x {
      assert s == [s[0]] + s[1..];
      var i :| 0 <= i < |s| && s[i] == x;
      assert i > 0 && key(s[0]) != key(s[i]);
      assert Unique(s[1..], key) by {
        forall i, j | 0 <= i < j < |s[1..]| ensures key(s[1..][i]) != key(s[1..][j]) {
          assert s[1..][i] == s[i + 1] && s[1..][j] == s[j + 1];
        }
      }
      FindUnique(s[1..], key, x);
    }
  }

  lemma {:induction false} FindAppend<T(!new), K>(s: seq<T>, key: T -> K, x: T, k: K)
    ensures Find(s + [x], key, k) ==
      (if Find(s, key, k).Some? then Find(s, key, k)
       else if key(x) == k then Some(x) else None)
  {
    if s != [] {
      assert (s + [x])[1..] == s[1..] + [x];
      FindAppend(s[1..], key, x, k);
    }
  }

  lemma {:induction false} FindReplaced<T(!new), K>(s: seq<T>, key: T -> K, x: T, k: K)
    requires Find(s, key, key(x)).Some?
    ensures Find(Replace(s, key, x), key, k) ==
      (if k == key(x) then Some(x) else Find(s, key, k))
  {
    var r := Replace(s, key, x);
    if key(s[0]) == key(x) {
      if k != key(x) {
        assert r[1..] == Replace(s[1..], key, x);
        FindReplacedOther(s[1..], key, x, k);
      }
    } else if key(s[0]) != k {
      assert r[1..] == Replace(s[1..], key, x);
      FindReplaced(s[1..], key, x, k);
    }
  }

  lemma {:induction false} FindReplacedOther<T(!new), K>(s: seq<T>, key: T -> K, x: T, k: K)
    requires k != key(x)
    ensures Find(Replace(s, key, x), key, k) == Find(s, key, k)
  {
    var r := Replace(s, key, x);
    if s != [] && key(r[0]) != k {
      assert r[1..] == Replace(s[1..], key, x);
      FindReplacedOther(s[1..], key, x, k);
    }
  }

  lemma {:induction false} FindRejected<T(!new), K>(s: seq<T>, key: T -> K, k: K, k': K)
    ensures Find(Reject(s, key, k), key, k') == (if k' == k then None else Find(s, key, k'))
  {
    if s != [] {
      FindRejected(s[1..], key, k, k');
    }
  }

  // ---------------------------------------------------------------------
  // Unique keys are kept by every update a handler performs

  lemma UniqueAppendFresh<T(!new)>(s: seq<T>, key: T -> nat, x: T, n: nat)
    requires Unique(s, key) && KeysBelow(s, key, n) && key(x) == n
    ensures Unique(s + [x], key) && KeysBelow(s + [x], key, n + 1)
  {
    forall i | 0 <= i < |s| ensures key((s + [x])[i]) != key(x) {
      assert s[i] in s;
    }
  }

  lemma UniqueAppend<T(!new), K>(s: seq<T>, key: T -> K, x: T)
    requires Unique(s, key) && forall y :: y in s ==> key(y) != key(x)
    ensures Unique(s + [x], key)
  {
    forall i | 0 <= i < |s| ensures key((s + [x])[i]) != key(x) {
      assert s[i] in s;
    }
  }

  lemma {:induction false} RejectKeepsUnique<T(!new), K, L>(s: seq<T>, key: T -> K, k: K, other: T -> L)
    requires Unique(s, other)
    ensures Unique(Reject(s, key, k), other)
  {
    if s != [] {
      var tail := Reject(s[1..], key, k);
      assert Unique(s[1..], other) by {
        forall i, j | 0 <= i < j < |s[1..]| ensures other(s[1..][i]) != other(s[1..][j]) {
          assert s[1..][i] == s[i + 1] && s[1..][j] == s[j + 1];
        }
      }
      RejectKeepsUnique(s[1..], key, k, other);
      if key(s[0]) != k {
        forall j | 0 <= j < |tail| ensures other(s[0]) != other(tail[j]) {
          assert tail[j] in s[1..];
          var m :| 0 <= m < |s[1..]| && s[1..][m] == tail[j];
          assert s[m + 1] == tail[j];
        }
        assert Reject(s, key, k) == [s[0]] + tail;
      }
    }
  }

  lemma ReplaceKeepsUnique<T(!new), K>(s: seq<T>, key: T -> K, x: T)
    requires Unique(s, key)
    ensures Unique(Replace(s, key, x), key)
  {
    var r := Replace(s, key, x);
    assert forall i :: 0 <= i < |s| ==> key(r[i]) == key(s[i]);
  }

  /** Replacing an element keeps a second key unique when no other element holds the new value of that key. */
  lemma ReplaceKeepsUniqueOther<T(!new), K, L>(s: seq<T>, key: T -> K, x: T, other: T -> L)
    requires Unique(s, key) && Unique(s, other)
    requires forall y :: y in s && key(y) != key(x) ==> other(y) != other(x)
    ensures Unique(Replace(s, key, x), other)
  {
    var r := Replace(s, key, x);
    forall i, j | 0 <= i < j < |r| ensures other(r[i]) != other(r[j]) {
      assert s[i] in s && s[j] in s;
    }
  }

  lemma ReplaceKeepsKeysBelow<T(!new)>(s: seq<T>, key: T -> nat, x: T, n: nat)
    requires KeysBelow(s, key, n) && Find(s, key, key(x)).Some?
    ensures KeysBelow(Replace(s, key, x), key, n)
  {
    var r := Replace(s, key, x);
    forall y | y in r ensures key(y) < n {
      var i :| 0 <= i < |r| && r[i] == y;
      assert s[i] in s;
    }
  }

  // ---------------------------------------------------------------------
  // Filtering: the round trip and the empty case

  lemma {:induction false} RejectAbsent<T(!new), K>(s: seq<T>, key: T -> K, k: K)
    requires forall x :: x in s ==> key(x) != k
    ensures Reject(s, key, k) == s
  {
    if s != [] {
      assert s == [s[0]] + s[1..];
      RejectAbsent(s[1..], key, k);
    }
  }

  lemma {:induction false} RejectAppend<T(!new), K>(s: seq<T>, t: seq<T>, key: T -> K, k: K)
    ensures Reject(s + t, key, k) == Reject(s, key, k) + Reject(t, key, k)
  {
    if s == [] {
      assert s + t == t;
    } else {
      assert (s + t)[0] == s[0] && (s + t)[1..] == s[1..] + t;
      RejectAppend(s[1..], t, key, k);
    }
  }

  /** Appending an element with a new key and then dropping that key gives back `s`. */
  lemma AppendThenReject<T(!new), K>(s: seq<T>, key: T -> K, x: T)
    requires Find(s, key, key(x)).None?
    ensures Reject(s + [x], key, key(x)) == s
  {
    RejectAppend(s, [x], key, key(x));
    RejectAbsent(s, key, key(x));
  }

  /** Writing back the element already stored under a unique key changes nothing. */
  lemma ReplaceWithStored<T(!new), K>(s: seq<T>, key: T -> K, x: T)
    requires Unique(s, key) && Find(s, key, key(x)) == Some(x)
    ensures Replace(s, key, x) == s
  {
    var j :| 0 <= j < |s| && s[j] == x;
    forall i | 0 <= i < |s| && key(s[i]) == key(x) ensures s[i] == x {
      assert i == j;
    }
  }

  /** A second write under the same key overrides the first. */
  lemma ReplaceTwice<T(!new), K>(s: seq<T>, key: T -> K, x: T, y: T)
    requires key(x) == key(y)
    ensures Replace(Replace(s, key, x), key, y) == Replace(s, key, y)
  {
  }

  // ---------------------------------------------------------------------
  // Sorting, newest first: the result is ordered and a permutation

  lemma {:induction false} InsertDescPermutes<T(!new)>(x: T, s: seq<T>, key: T -> int)
    ensures multiset(InsertDesc(x, s, key)) == multiset(s) + multiset{x}
  {
    if s != [] && key(x) < key(s[0]) {
      InsertDescPermutes(x, s[1..], key);
      assert s == [s[0]] + s[1..];
    }
  }

  lemma {:induction false} InsertDescSorted<T(!new)>(x: T, s: seq<T>, key: T -> int)
    requires SortedDesc(s, key)
    ensures SortedDesc(InsertDesc(x, s, key), key)
  {
    if s != [] && key(x) < key(s[0]) {
      var tail := InsertDesc(x, s[1..], key);
      InsertDescSorted(x, s[1..], key);
      InsertDescPermutes(x, s[1..], key);
      forall j | 0 <= j < |tail| ensures key(s[0]) >= key(tail[j]) {
        assert tail[j] in multiset(tail);
        if tail[j] != x {
          assert tail[j] in multiset(s[1..]);
          var m :| 0 <= m < |s[1..]| && s[1..][m] == tail[j];
          assert s[m + 1] == tail[j];
        }
      }
    }
  }

  lemma {:induction false} SortDescCorrect<T(!new)>(s: seq<T>, key: T -> int)
    ensures SortedDesc(SortDesc(s, key), key)
    ensures multiset(SortDesc(s, key)) == multiset(s)
  {
    if s != [] {
      SortDescCorrect(s[1..], key);
      InsertDescSorted(s[0], SortDesc(s[1..], key), key);
      InsertDescPermutes(s[0], SortDesc(s[1..], key), key);
      assert s == [s[0]] + s[1..];
    }
  }

  /**
   * The query `find({field: k}).sort({createdAt: -1})`: exactly the elements
   * with key `k`, each as often as stored, newest first.
   */
  function SelectNewestFirst<T(!new), K(==)>(s: seq<T>, key: T -> K, k: K, stamp: T -> int): (r: seq<T>)
    ensures SortedDesc(r, stamp)
    ensures multiset(r) == multiset(Select(s, key, k))
    ensures forall x :: x in r <==> x in s && key(x) == k
  {
    var picked := Select(s, key, k);
    assert SortedDesc(SortDesc(picked, stamp), stamp) && multiset(SortDesc(picked, stamp)) == multiset(picked) by {
      SortDescCorrect(picked, stamp);
    }
    assert forall x :: x in SortDesc(picked, stamp) <==> x in multiset(picked);
    SortDesc(picked, stamp)
  }
}
