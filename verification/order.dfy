/** `orderBy: { createdAt: "desc" }` and `take`: newest-first ordering of query
    results by a timestamp key. */
module Order {

  ghost predicate SortedDesc<T>(s: seq<T>, key: T -> int) {
    forall i, j :: 0 <= i < j < |s| ==> key(s[i]) >= key(s[j])
  }

  /** Places `x` into a newest-first sequence, before the first element that is not newer. */
  function InsertDesc<T>(x: T, s: seq<T>, key: T -> int): (r: seq<T>)
    requires SortedDesc(s, key)
    ensures SortedDesc(r, key)
    ensures multiset(r) == multiset(s) + multiset{x}
    ensures |r| == |s| + 1
    ensures r[0] == x || (s != [] && r[0] == s[0])
  {
    if s == [] || key(x) >= key(s[0]) then
      [x] + s
    else
      TailSorted(s, key);
      var t := InsertDesc(x, s[1..], key);
      InsertedBehind(x, s, t, key);
      [s[0]] + t
  }

  lemma TailSorted<T>(s: seq<T>, key: T -> int)
    requires s != [] && SortedDesc(s, key)
    ensures SortedDesc(s[1..], key)
  {
    forall i, j | 0 <= i < j < |s| - 1 ensures key(s[1..][i]) >= key(s[1..][j]) {
      assert s[1..][i] == s[i + 1] && s[1..][j] == s[j + 1];
    }
  }

  /** The step of `InsertDesc` that keeps the head and files `x` behind it. */
  lemma InsertedBehind<T>(x: T, s: seq<T>, t: seq<T>, key: T -> int)
    requires s != [] && SortedDesc(s, key) && key(x) < key(s[0])
    requires SortedDesc(t, key) && multiset(t) == multiset(s[1..]) + multiset{x}
    requires t != [] && (t[0] == x || (|s| > 1 && t[0] == s[1]))
    ensures SortedDesc([s[0]] + t, key)
    ensures multiset([s[0]] + t) == multiset(s) + multiset{x}
  {
    assert s == [s[0]] + s[1..];
    assert key(s[0]) >= key(t[0]);
    HeadSorted(s[0], t, key);
    assert multiset([s[0]] + t) == multiset{s[0]} + multiset(t);
    assert multiset(s) == multiset{s[0]} + multiset(s[1..]);
  }

  lemma HeadSorted<T>(a: T, t: seq<T>, key: T -> int)
    requires SortedDesc(t, key) && (t != [] ==> key(a) >= key(t[0]))
    ensures SortedDesc([a] + t, key)
  {
    var r := [a] + t;
    forall i, j | 0 <= i < j < |r| ensures key(r[i]) >= key(r[j]) {
      if i == 0 {
        assert r[j] == t[j - 1];
        if j > 1 { assert key(t[0]) >= key(t[j - 1]); }
      } else {
        assert r[i] == t[i - 1] && r[j] == t[j - 1];
      }
    }
  }

  /** The rows of `s`, newest first. */
  function SortDesc<T>(s: seq<T>, key: T -> int): (r: seq<T>)
    ensures SortedDesc(r, key)
    ensures multiset(r) == multiset(s)
    ensures |r| == |s|
  {
    if s == [] then []
    else
      assert s == [s[0]] + s[1..];
      InsertDesc(s[0], SortDesc(s[1..], key), key)
  }

  /** `take: n`. */
  function Take<T>(s: seq<T>, n: nat): (r: seq<T>)
    ensures |r| == if |s| <= n then |s| else n
    ensures r <= s
  {
    if |s| <= n then s else s[..n]
  }

  /** The first rows of a sorted listing are rows of what was sorted, each
      taken at most as often as it occurs there. */
  lemma TakeSortedFrom<T>(s: seq<T>, n: nat, key: T -> int)
    ensures multiset(Take(SortDesc(s, key), n)) <= multiset(s)
    ensures forall x :: x in Take(SortDesc(s, key), n) ==> x in s
  {
    var r := SortDesc(s, key);
    var p := Take(r, n);
    assert r == p + r[|p|..];
    assert multiset(r) == multiset(p) + multiset(r[|p|..]);
    assert multiset(p) <= multiset(s);
    forall x | x in p ensures x in s {
      assert x in multiset(p) && x in multiset(s);
    }
  }

  /** A row of a newest-first listing that the first `n` rows leave out is no
      newer than the last of them, and there are `n` of them. */
  lemma TakeSortedRest<T>(s: seq<T>, n: nat, key: T -> int)
    requires n > 0 && SortedDesc(s, key)
    ensures forall x :: x in s && x !in Take(s, n) ==> |Take(s, n)| == n && key(x) <= key(Take(s, n)[n - 1])
  {
    forall x | x in s && x !in Take(s, n) ensures |Take(s, n)| == n && key(x) <= key(Take(s, n)[n - 1]) {
      var j :| 0 <= j < |s| && s[j] == x;
      NotTakenIndex(s, n, j);
      assert Take(s, n)[n - 1] == s[n - 1];
    }
  }

  /** A position whose row the first `n` rows do not hold lies past them. */
  lemma NotTakenIndex<T>(s: seq<T>, n: nat, j: nat)
    requires j < |s| && s[j] !in Take(s, n)
    ensures n <= j && |Take(s, n)| == n
  {
  }

  /** The first rows of a newest-first listing are newest first. */
  lemma TakeSorted<T>(s: seq<T>, n: nat, key: T -> int)
    requires SortedDesc(s, key)
    ensures SortedDesc(Take(s, n), key)
  {
    var r := Take(s, n);
    forall i, j | 0 <= i < j < |r| ensures key(r[i]) >= key(r[j]) {
      assert r[i] == s[i] && r[j] == s[j];
    }
  }
}
