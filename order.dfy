/** Ordering the store applies to listings (`orderBy: { field: 'desc' }`) and
    the array operations the activity feed uses (a stable sort with the
    comparator `b - a`, and `slice(0, n)`). */
module Order {

  /** Non-increasing by the given key. */
  predicate SortedDesc<T>(s: seq<T>, key: T -> int) {
    forall i, j :: 0 <= i < j < |s| ==> key(s[i]) >= key(s[j])
  }

  /** Inserts x before the first element whose key is not larger, so x stays
      ahead of elements with an equal key that followed it. */
  function InsertDesc<T>(x: T, s: seq<T>, key: T -> int): (r: seq<T>)
    requires SortedDesc(s, key)
    ensures SortedDesc(r, key)
    ensures multiset(r) == multiset(s) + multiset{x}
    ensures |r| == |s| + 1
    ensures r[0] == x || (s != [] && r[0] == s[0])
  {
    if s == [] || key(s[0]) <= key(x) then [x] + s
    else
      assert s == [s[0]] + s[1..];
      [s[0]] + InsertDesc(x, s[1..], key)
  }

  /** Stable sort, largest key first. */
  function SortDesc<T>(s: seq<T>, key: T -> int): (r: seq<T>)
    ensures SortedDesc(r, key)
    ensures multiset(r) == multiset(s)
    ensures |r| == |s|
  {
    if s == [] then []
    else
      assert s == [s[0]] + s[1..];
      InsertDesc(s[0], SortDesc(s[1..], key), key)
  }

  /** `slice(0, n)`: the first n elements, or all of them when there are fewer. */
  function Take<T>(s: seq<T>, n: nat): (r: seq<T>)
    ensures |r| == if |s| < n then |s| else n
    ensures r <= s
  {
    if |s| <= n then s else s[..n]
  }

  lemma TakeKeepsOrder<T>(s: seq<T>, n: nat, key: T -> int)
    requires SortedDesc(s, key)
    ensures SortedDesc(Take(s, n), key)
  {
  }

  /** What a prefix of a sorted sequence keeps has keys at least those of what it drops. */
  lemma TakeKeepsLargest<T>(s: seq<T>, n: nat, key: T -> int)
    requires SortedDesc(s, key)
    ensures forall i, j :: 0 <= i < |Take(s, n)| <= j < |s| ==> key(s[i]) >= key(s[j])
  {
  }

  lemma MultisetMembership<T>(a: seq<T>, b: seq<T>, x: T)
    requires multiset(a) == multiset(b)
    ensures x in a <==> x in b
  {
    assert x in a <==> x in multiset(a);
    assert x in b <==> x in multiset(b);
  }

  /** A prefix of a sorted sequence holds its largest keys: anything of s that
      the prefix leaves out has a key no larger than anything it keeps. */
  lemma TakeOfSortedIsTop<T>(s: seq<T>, n: nat, key: T -> int, x: T, y: T)
    requires y in Take(SortDesc(s, key), n)
    requires x in s && x !in Take(SortDesc(s, key), n)
    ensures key(x) <= key(y)
  {
    var sorted := SortDesc(s, key);
    var kept := Take(sorted, n);
    MultisetMembership(s, sorted, x);
    var j :| 0 <= j < |sorted| && sorted[j] == x;
    var i :| 0 <= i < |kept| && kept[i] == y;
    assert j >= |kept|;
    assert sorted[i] == y;
  }
}
