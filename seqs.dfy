/** Sequence helpers: the model keeps every database table as a sequence of rows
    in insertion order, and a queryset as a filtered (and possibly reversed) table. */
module Seqs {

  datatype Option<+T> = None | Some(value: T) {
    function GetOr(default: T): T {
      if Some? then value else default
    }
  }

  /** The elements of `s` satisfying `f`, in their original order. */
  function Filter<T(!new)>(s: seq<T>, f: T -> bool): (r: seq<T>)
    ensures |r| <= |s|
    ensures forall x :: x in r <==> x in s && f(x)
  {
    if s == [] then []
    else
      assert s == [s[0]] + s[1..];
      if f(s[0]) then [s[0]] + Filter(s[1..], f) else Filter(s[1..], f)
  }

  /** `s` back to front. */
  function Reverse<T(!new)>(s: seq<T>): (r: seq<T>)
    ensures |r| == |s|
    ensures forall i :: 0 <= i < |s| ==> r[i] == s[|s| - 1 - i]
    ensures forall x :: x in r <==> x in s
  {
    if s == [] then []
    else
      assert s == s[..|s| - 1] + [s[|s| - 1]];
      [s[|s| - 1]] + Reverse(s[..|s| - 1])
  }

  /** `g` applied to every element, positions kept. */
  function MapSeq<T>(s: seq<T>, g: T -> T): (r: seq<T>)
    ensures |r| == |s|
    ensures forall i :: 0 <= i < |s| ==> r[i] == g(s[i])
  {
    seq(|s|, i requires 0 <= i < |s| => g(s[i]))
  }

  /** The first element of `s` whose key is `k` (a `get` by key). */
  function Find<T(!new), K(==)>(s: seq<T>, key: T -> K, k: K): (r: Option<T>)
    ensures r.Some? ==> r.value in s && key(r.value) == k
    ensures r.None? <==> forall x :: x in s ==> key(x) != k
  {
    if s == [] then None
    else if key(s[0]) == k then Some(s[0])
    else
      assert s == [s[0]] + s[1..];
      Find(s[1..], key, k)
  }

  /** Keys strictly increase along `s` (ids and creation stamps of a table). */
  ghost predicate Increasing<T>(s: seq<T>, key: T -> int) {
    forall i, j :: 0 <= i < j < |s| ==> key(s[i]) < key(s[j])
  }

  /** Keys strictly decrease along `s` (a newest-first listing). */
  ghost predicate Decreasing<T>(s: seq<T>, key: T -> int) {
    forall i, j :: 0 <= i < j < |s| ==> key(s[i]) > key(s[j])
  }

  /** The set of keys of the elements of `s` that satisfy `f`. */
  ghost function KeysWhere<T>(s: seq<T>, key: T -> int, f: T -> bool): set<int> {
    set x | x in s && f(x) :: key(x)
  }

  lemma IncreasingInjective<T>(s: seq<T>, key: T -> int, x: T, y: T)
    requires Increasing(s, key) && x in s && y in s && key(x) == key(y)
    ensures x == y
  {
    var i :| 0 <= i < |s| && s[i] == x;
    var j :| 0 <= j < |s| && s[j] == y;
    if i < j {
      assert key(s[i]) < key(s[j]);
    } else if j < i {
      assert key(s[j]) < key(s[i]);
    }
  }

  /** With unique keys, looking up the key of an element finds that element. */
  lemma FindUnique<T(!new)>(s: seq<T>, key: T -> int, x: T)
    requires Increasing(s, key) && x in s
    ensures Find(s, key, key(x)) == Some(x)
  {
    var r := Find(s, key, key(x));
    assert r.Some?;
    IncreasingInjective(s, key, r.value, x);
  }

  lemma {:induction false} FilterIncreasing<T(!new)>(s: seq<T>, f: T -> bool, key: T -> int)
    requires Increasing(s, key)
    ensures Increasing(Filter(s, f), key)
  {
    if s != [] {
      var tail := s[1..];
      assert Increasing(tail, key) by {
        forall i, j | 0 <= i < j < |tail| ensures key(tail[i]) < key(tail[j]) {
          assert tail[i] == s[i + 1] && tail[j] == s[j + 1];
        }
      }
      FilterIncreasing(tail, f, key);
      if f(s[0]) {
        var rest := Filter(tail, f);
        var r := [s[0]] + rest;
        assert r == Filter(s, f);
        forall i, j | 0 <= i < j < |r| ensures key(r[i]) < key(r[j]) {
          if i == 0 {
            assert r[j] == rest[j - 1] && rest[j - 1] in tail;
            var k :| 0 <= k < |tail| && tail[k] == rest[j - 1];
            assert tail[k] == s[k + 1];
          } else {
            assert r[i] == rest[i - 1] && r[j] == rest[j - 1];
          }
        }
      }
    }
  }

  /** Filtering keeps the order of the keys: the form used inside function bodies. */
  lemma FilterKeepsOrder<T(!new)>(s: seq<T>, f: T -> bool, key: T -> int)
    ensures Increasing(s, key) ==> Increasing(Filter(s, f), key)
  {
    if Increasing(s, key) {
      FilterIncreasing(s, f, key);
    }
  }

  lemma {:induction false} FilterDecreasing<T(!new)>(s: seq<T>, f: T -> bool, key: T -> int)
    requires Decreasing(s, key)
    ensures Decreasing(Filter(s, f), key)
  {
    if s != [] {
      var tail := s[1..];
      assert Decreasing(tail, key) by {
        forall i, j | 0 <= i < j < |tail| ensures key(tail[i]) > key(tail[j]) {
          assert tail[i] == s[i + 1] && tail[j] == s[j + 1];
        }
      }
      FilterDecreasing(tail, f, key);
      if f(s[0]) {
        var rest := Filter(tail, f);
        var r := [s[0]] + rest;
        assert r == Filter(s, f);
        forall i, j | 0 <= i < j < |r| ensures key(r[i]) > key(r[j]) {
          if i == 0 {
            assert r[j] == rest[j - 1] && rest[j - 1] in tail;
            var k :| 0 <= k < |tail| && tail[k] == rest[j - 1];
            assert tail[k] == s[k + 1];
          } else {
            assert r[i] == rest[i - 1] && r[j] == rest[j - 1];
          }
        }
      }
    }
  }

  lemma ReverseDecreasing<T(!new)>(s: seq<T>, key: T -> int)
    requires Increasing(s, key)
    ensures Decreasing(Reverse(s), key)
  {
    var r := Reverse(s);
    forall i, j | 0 <= i < j < |r| ensures key(r[i]) > key(r[j]) {
      assert r[i] == s[|s| - 1 - i] && r[j] == s[|s| - 1 - j];
    }
  }

  /** With unique keys, the length of a filtered sequence is the number of
      distinct keys it selects: counting rows is counting ids. */
  lemma {:induction false} FilterCount<T(!new)>(s: seq<T>, key: T -> int, f: T -> bool)
    requires Increasing(s, key)
    ensures |Filter(s, f)| == |KeysWhere(s, key, f)|
  {
    if s == [] {
      assert KeysWhere(s, key, f) == {};
    } else {
      var tail := s[1..];
      assert s == [s[0]] + tail;
      assert Increasing(tail, key) by {
        forall i, j | 0 <= i < j < |tail| ensures key(tail[i]) < key(tail[j]) {
          assert tail[i] == s[i + 1] && tail[j] == s[j + 1];
        }
      }
      FilterCount(tail, key, f);
      var rest := KeysWhere(tail, key, f);
      forall k | 0 <= k < |tail| ensures key(tail[k]) != key(s[0]) {
        assert tail[k] == s[k + 1];
      }
      assert key(s[0]) !in rest;
      if f(s[0]) {
        assert KeysWhere(s, key, f) == {key(s[0])} + rest;
      } else {
        assert KeysWhere(s, key, f) == rest;
      }
    }
  }

  /** `FilterCount` in the form used inside function bodies. */
  lemma FilterCountKeys<T(!new)>(s: seq<T>, key: T -> int, f: T -> bool)
    ensures Increasing(s, key) ==> |Filter(s, f)| == |KeysWhere(s, key, f)|
  {
    if Increasing(s, key) {
      FilterCount(s, key, f);
    }
  }

  /** A filtered table read back to front is newest first. */
  lemma NewestFirst<T(!new)>(s: seq<T>, f: T -> bool, key: T -> int)
    ensures Increasing(s, key) ==> Decreasing(Reverse(Filter(s, f)), key)
  {
    if Increasing(s, key) {
      FilterIncreasing(s, f, key);
      ReverseDecreasing(Filter(s, f), key);
    }
  }

  /** Filtering keeps a newest-first order: the form used inside function bodies. */
  lemma FilterKeepsNewestFirst<T(!new)>(s: seq<T>, f: T -> bool, key: T -> int)
    ensures Decreasing(s, key) ==> Decreasing(Filter(s, f), key)
  {
    if Decreasing(s, key) {
      FilterDecreasing(s, f, key);
    }
  }
}
