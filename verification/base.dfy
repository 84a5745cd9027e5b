/** Shared vocabulary: optional values, outcomes of remote calls, HTTP replies,
    and the first-match search that several lookups of the system perform. */
module Base {

  /** Record identifiers (the store's generated ids, user ids). */
  type Id = nat

  datatype Option<+T> = None | Some(value: T) {
    function GetOr(default: T): T {
      match this
      case Some(v) => v
      case None => default
    }
  }

  /** The outcome of a call into code outside the model: a value, or an exception. */
  datatype Fetch<+T> = Got(value: T) | Threw

  /** The HTTP answer of a route handler. */
  datatype Reply<+T> =
    | Unauthorized   // 401
    | BadRequest     // 400
    | Conflict       // 409
    | ServerError    // 500, including an exception the handler does not catch
    | Ok(body: T)    // 200 / 201

  /** JavaScript truthiness of an optional string: present and non-empty. */
  predicate Truthy(s: Option<string>) {
    s.Some? && s.value != ""
  }

  /** JavaScript truthiness of an optional number: present and non-zero. */
  predicate TruthyNat(n: Option<nat>) {
    n.Some? && n.value != 0
  }

  /** Index of the first element satisfying `p`, as `Array.prototype.find` and a
      `for … of` loop with an early `return` locate it. */
  function FirstMatch<T>(s: seq<T>, p: T -> bool): (r: Option<nat>)
    ensures r.Some? ==> r.value < |s| && p(s[r.value])
    ensures r.Some? ==> forall j :: 0 <= j < r.value ==> !p(s[j])
    ensures r.None? <==> forall j :: 0 <= j < |s| ==> !p(s[j])
  {
    if s == [] then None
    else if p(s[0]) then Some(0)
    else match FirstMatch(s[1..], p)
      case None => None
      case Some(k) => Some(k + 1)
  }

  /** `xs.some(p)`. */
  predicate Any<T>(s: seq<T>, p: T -> bool) {
    FirstMatch(s, p).Some?
  }

  /** The elements of `s` that satisfy `p`, in order (`xs.filter(p)`). */
  function Filter<T(!new)>(s: seq<T>, p: T -> bool): (r: seq<T>)
    ensures |r| <= |s|
    ensures forall x :: x in r <==> x in s && p(x)
    ensures forall k :: 0 <= k < |r| ==> p(r[k])
  {
    if s == [] then []
    else if p(s[0]) then [s[0]] + Filter(s[1..], p)
    else Filter(s[1..], p)
  }

  /** Growing a log by appending is transitive. */
  lemma PrefixTransitive<T>(a: seq<T>, b: seq<T>, c: seq<T>)
    requires a <= b && b <= c
    ensures a <= c
  {
    assert a == b[..|a|] && b == c[..|b|];
    assert c[..|b|][..|a|] == c[..|a|];
  }

  /** The elements of a sequence are pairwise distinct. */
  predicate Distinct<T(==)>(s: seq<T>) {
    forall i, j :: 0 <= i < j < |s| ==> s[i] != s[j]
  }

  /** Appending a new element keeps a sequence distinct. */
  lemma DistinctSnoc<T>(s: seq<T>, x: T)
    requires Distinct(s) && x !in s
    ensures Distinct(s + [x])
  {
    var t := s + [x];
    forall i, j | 0 <= i < j < |t| ensures t[i] != t[j] {
      assert t[i] == s[i];
    }
  }

  /** A distinct sequence holding exactly the elements of `e` is as long as `e` is large. */
  lemma {:induction false} DistinctLength<T>(s: seq<T>, e: set<T>)
    requires Distinct(s) && forall x :: x in s <==> x in e
    ensures |s| == |e|
  {
    if s != [] {
      var last := s[|s| - 1];
      var init := s[..|s| - 1];
      forall i, j | 0 <= i < j < |init| ensures init[i] != init[j] {
        assert init[i] == s[i] && init[j] == s[j];
      }
      forall x ensures x in init <==> x in e - {last} {
        if x in init {
          var k :| 0 <= k < |init| && init[k] == x;
          assert s[k] == x && s[k] != s[|s| - 1];
        }
      }
      DistinctLength(init, e - {last});
    }
  }

  /** `findMany` with a `where` clause: the matching ids, in an order the
      store chooses. */
  method Enumerate(s: set<Id>) returns (ws: seq<Id>)
    ensures Distinct(ws)
    ensures forall x :: x in ws <==> x in s
  {
    var left := s;
    ws := [];
    while left != {}
      invariant left <= s
      invariant Distinct(ws)
      invariant forall x :: x in ws <==> x in s && x !in left
      decreases |left|
    {
      var x :| x in left;
      ws := ws + [x];
      left := left - {x};
    }
  }
}
