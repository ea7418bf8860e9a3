/** Database tables as sequences of rows. Each table has a string key column;
    generated keys come from a counter and are stored as decimal strings. */
module Tables {
  import opened Base
  import opened Text

  /** No two rows share a key. */
  predicate UniqueKeys<T>(t: seq<T>, key: T -> string) {
    forall i, j :: 0 <= i < j < |t| ==> key(t[i]) != key(t[j])
  }

  /** Every key in t was issued from the counter before it reached n. */
  predicate IssuedBelow<T>(t: seq<T>, key: T -> string, n: nat) {
    forall i :: 0 <= i < |t| ==> ParseNat(key(t[i])).Some? && ParseNat(key(t[i])).value < n
  }

  predicate GoodTable<T>(t: seq<T>, key: T -> string, n: nat) {
    UniqueKeys(t, key) && IssuedBelow(t, key, n)
  }

  /** The key issued next differs from every key already in the table. */
  lemma NextIdIsFresh<T>(t: seq<T>, key: T -> string, n: nat)
    requires IssuedBelow(t, key, n)
    ensures forall i :: 0 <= i < |t| ==> key(t[i]) != NatToString(n)
  {
    NatToStringRoundTrip(n);
  }

  lemma AppendKeepsGood<T>(t: seq<T>, key: T -> string, n: nat, x: T)
    requires GoodTable(t, key, n) && key(x) == NatToString(n)
    ensures GoodTable(t + [x], key, n + 1)
  {
    NextIdIsFresh(t, key, n);
    NatToStringRoundTrip(n);
  }

  lemma GoodTableGrows<T>(t: seq<T>, key: T -> string, n: nat)
    ensures GoodTable(t, key, n) ==> GoodTable(t, key, n + 1)
  {
  }

  lemma ReplaceKeepsGood<T>(t: seq<T>, key: T -> string, n: nat, i: nat, y: T)
    requires GoodTable(t, key, n) && i < |t| && key(y) == key(t[i])
    ensures GoodTable(t[i := y], key, n)
  {
  }

  lemma ReplaceKeepsUnique<T>(t: seq<T>, key: T -> string, i: nat, y: T)
    requires UniqueKeys(t, key) && i < |t| && key(y) == key(t[i])
    ensures UniqueKeys(t[i := y], key)
  {
  }

  /** The position of the row with key k. */
  function IndexOf<T>(t: seq<T>, key: T -> string, k: string): (r: Option<nat>)
    ensures r.Some? ==> r.value < |t| && key(t[r.value]) == k
    ensures r.None? ==> forall i :: 0 <= i < |t| ==> key(t[i]) != k
  {
    if t == [] then None
    else if key(t[|t| - 1]) == k then Some(|t| - 1)
    else IndexOf(t[..|t| - 1], key, k)
  }

  function RemoveAt<T>(t: seq<T>, i: nat): (r: seq<T>)
    requires i < |t|
    ensures |r| == |t| - 1
  {
    t[..i] + t[i + 1..]
  }

  /** With unique keys, removing the row found for a key removes exactly the
      rows with that key and keeps every other row. */
  lemma {:induction false} RemoveAtRemovesOnlyThatKey<T>(t: seq<T>, key: T -> string, k: string)
    requires UniqueKeys(t, key) && IndexOf(t, key, k).Some?
    ensures var r := RemoveAt(t, IndexOf(t, key, k).value);
      |r| == |t| - 1 && forall x :: x in r <==> x in t && key(x) != k
  {
    var i := IndexOf(t, key, k).value;
    var r := RemoveAt(t, i);
    forall x | x in r ensures x in t && key(x) != k {
      var j :| 0 <= j < |r| && r[j] == x;
      if j < i { assert t[j] == x; } else { assert t[j + 1] == x; }
    }
    forall x | x in t && key(x) != k ensures x in r {
      var j :| 0 <= j < |t| && t[j] == x;
      if j < i { assert r[j] == x; } else { assert j != i; assert r[j - 1] == x; }
    }
  }

  /** Removing a row keeps keys unique; it keeps every key issued below n. */
  lemma RemoveKeepsUnique<T>(t: seq<T>, key: T -> string, i: nat)
    requires UniqueKeys(t, key) && i < |t|
    ensures UniqueKeys(RemoveAt(t, i), key)
  {
    var r := RemoveAt(t, i);
    forall a, b | 0 <= a < b < |r| ensures key(r[a]) != key(r[b]) {
      var a' := if a < i then a else a + 1;
      var b' := if b < i then b else b + 1;
      assert r[a] == t[a'] && r[b] == t[b'];
    }
  }

  lemma RemoveKeepsGood<T>(t: seq<T>, key: T -> string, n: nat, i: nat)
    requires GoodTable(t, key, n) && i < |t|
    ensures GoodTable(RemoveAt(t, i), key, n)
  {
    var r := RemoveAt(t, i);
    RemoveKeepsUnique(t, key, i);
    forall a | 0 <= a < |r| ensures ParseNat(key(r[a])).Some? && ParseNat(key(r[a])).value < n {
      assert r[a] == t[if a < i then a else a + 1];
    }
  }
}
