/** String helpers the handlers rely on: decimal rendering of numbers (as a
    JavaScript template literal prints them), case-insensitive containment
    (the `ILIKE '%…%'` test of the media-usage query) and Node's
    `path.extname`. */
module Text {
  import opened Base

  // ---------------------------------------------------------------------------
  // Decimal numbers

  predicate IsDigit(c: char) {
    '0' <= c <= '9'
  }

  function DigitChar(d: nat): (c: char)
    requires d < 10
    ensures IsDigit(c) && (c as int) - ('0' as int) == d
  {
    (('0' as int) + d) as char
  }

  /** The decimal spelling of n, without leading zeros. */
  function NatToString(n: nat): (s: string)
    ensures |s| > 0
    ensures forall i :: 0 <= i < |s| ==> IsDigit(s[i])
    ensures |s| > 1 ==> s[0] != '0'
  {
    if n < 10 then [DigitChar(n)] else NatToString(n / 10) + [DigitChar(n % 10)]
  }

  /** The decimal spelling of an integer, with a leading '-' when negative. */
  function IntToString(i: int): (s: string)
    ensures i >= 0 ==> s == NatToString(i)
    ensures i < 0 ==> s == "-" + NatToString(-i)
  {
    if i < 0 then "-" + NatToString(-i) else NatToString(i)
  }

  /** The value of a string of digits. */
  function DigitsValue(s: string): nat
    requires forall i :: 0 <= i < |s| ==> IsDigit(s[i])
  {
    if s == [] then 0
    else
      var last := s[|s| - 1];
      assert IsDigit(last);
      DigitsValue(s[..|s| - 1]) * 10 + ((last as int) - ('0' as int))
  }

  /** Reads back a decimal number; anything other than a non-empty run of digits is None. */
  function ParseNat(s: string): Option<nat> {
    if s != [] && forall i :: 0 <= i < |s| ==> IsDigit(s[i]) then Some(DigitsValue(s)) else None
  }

  lemma {:induction false} DigitsValueOfNatToString(n: nat)
    ensures DigitsValue(NatToString(n)) == n
  {
    if n >= 10 {
      var front := NatToString(n / 10);
      var s := front + [DigitChar(n % 10)];
      assert s[..|s| - 1] == front;
      DigitsValueOfNatToString(n / 10);
    }
  }

  /** Decimal rendering is undone by parsing, so distinct numbers render differently. */
  lemma NatToStringRoundTrip(n: nat)
    ensures ParseNat(NatToString(n)) == Some(n)
  {
    DigitsValueOfNatToString(n);
  }

  lemma NatToStringInjective(m: nat, n: nat)
    ensures NatToString(m) == NatToString(n) ==> m == n
  {
    NatToStringRoundTrip(m);
    NatToStringRoundTrip(n);
  }

  // ---------------------------------------------------------------------------
  // Case-insensitive containment

  /** Lower-casing of one character; only the ASCII letters A-Z change. */
  function LowerChar(c: char): char {
    if 'A' <= c <= 'Z' then ((c as int) + 32) as char else c
  }

  function Lower(s: string): (r: string)
    ensures |r| == |s|
    ensures forall i :: 0 <= i < |s| ==> r[i] == LowerChar(s[i])
  {
    seq(|s|, i requires 0 <= i < |s| => LowerChar(s[i]))
  }

  /** `needle` occurs in `hay` at offset i. */
  predicate OccursAt(hay: string, needle: string, i: int) {
    0 <= i && i + |needle| <= |hay| && hay[i..i + |needle|] == needle
  }

  /** Substring containment, scanning `hay` from the left. */
  function Contains(hay: string, needle: string): (b: bool)
    ensures needle <= hay ==> b
    ensures b ==> |needle| <= |hay|
    decreases |hay|
  {
    if needle <= hay then true
    else if hay == [] then false
    else Contains(hay[1..], needle)
  }

  lemma {:induction false} ContainsHasOccurrence(hay: string, needle: string) returns (i: nat)
    requires Contains(hay, needle)
    ensures OccursAt(hay, needle, i)
    decreases |hay|
  {
    if needle <= hay {
      i := 0;
    } else {
      var j := ContainsHasOccurrence(hay[1..], needle);
      assert hay[j + 1..j + 1 + |needle|] == hay[1..][j..j + |needle|];
      i := j + 1;
    }
  }

  lemma {:induction false} OccurrenceIsContained(hay: string, needle: string, i: nat)
    requires OccursAt(hay, needle, i)
    ensures Contains(hay, needle)
    decreases i
  {
    if i == 0 {
      assert needle == hay[..|needle|];
    } else if !(needle <= hay) {
      assert hay[1..][i - 1..i - 1 + |needle|] == hay[i..i + |needle|];
      OccurrenceIsContained(hay[1..], needle, i - 1);
    }
  }

  /** The scan agrees with the textbook definition: some offset holds the needle. */
  lemma ContainsIffOccurs(hay: string, needle: string)
    ensures Contains(hay, needle) <==> exists i :: OccursAt(hay, needle, i)
  {
    if Contains(hay, needle) {
      var i := ContainsHasOccurrence(hay, needle);
    }
    if exists i :: OccursAt(hay, needle, i) {
      var i :| OccursAt(hay, needle, i);
      OccurrenceIsContained(hay, needle, i);
    }
  }

  /** `ILIKE '%needle%'`: containment after lower-casing both sides. */
  predicate ContainsIgnoringCase(hay: string, needle: string) {
    Contains(Lower(hay), Lower(needle))
  }

  lemma LowerOfSlice(s: string, i: nat, j: nat)
    requires i <= j <= |s|
    ensures Lower(s[i..j]) == Lower(s)[i..j]
  {
  }

  /** An exact occurrence is also found when case is ignored. */
  lemma ExactMatchIsCaseInsensitiveMatch(hay: string, needle: string)
    ensures Contains(hay, needle) ==> ContainsIgnoringCase(hay, needle)
  {
    if Contains(hay, needle) {
      ContainsIffOccurs(hay, needle);
      var i :| OccursAt(hay, needle, i);
      LowerOfSlice(hay, i, i + |needle|);
      assert OccursAt(Lower(hay), Lower(needle), i);
      ContainsIffOccurs(Lower(hay), Lower(needle));
    }
  }

  lemma LowerIdempotent(s: string)
    ensures Lower(Lower(s)) == Lower(s)
  {
  }

  /** The case of the searched text or of the needle never changes the answer. */
  lemma CaseOfEitherSideIrrelevant(hay: string, needle: string)
    ensures ContainsIgnoringCase(hay, needle) == ContainsIgnoringCase(Lower(hay), needle)
    ensures ContainsIgnoringCase(hay, needle) == ContainsIgnoringCase(hay, Lower(needle))
  {
    LowerIdempotent(hay);
    LowerIdempotent(needle);
  }

  // ---------------------------------------------------------------------------
  // Node's path.extname (POSIX flavour)

  /** The path without its trailing '/' characters. */
  function TrimTrailingSlashes(p: string): (r: string)
    ensures r <= p
    ensures r == [] || r[|r| - 1] != '/'
  {
    if p != [] && p[|p| - 1] == '/' then TrimTrailingSlashes(p[..|p| - 1]) else p
  }

  /** The index of the last occurrence of c in s. */
  function LastIndexOf(s: string, c: char): (r: Option<nat>)
    ensures r.Some? ==> r.value < |s| && s[r.value] == c
    ensures r.Some? ==> forall j :: r.value < j < |s| ==> s[j] != c
    ensures r.None? ==> forall j :: 0 <= j < |s| ==> s[j] != c
  {
    if s == [] then None
    else if s[|s| - 1] == c then Some(|s| - 1)
    else LastIndexOf(s[..|s| - 1], c)
  }

  /** The last path segment once trailing slashes are removed. */
  function BaseName(p: string): (b: string)
    ensures forall j :: 0 <= j < |b| ==> b[j] != '/'
  {
    var t := TrimTrailingSlashes(p);
    match LastIndexOf(t, '/')
    case None => t
    case Some(k) => t[k + 1..]
  }

  /** `path.extname(p)`: from the last '.' of the last segment to its end, or ""
      when that segment has no '.', starts with its only dot, or is "..". */
  function Extname(p: string): (e: string)
    ensures e == "" || e[0] == '.'
  {
    var b := BaseName(p);
    match LastIndexOf(b, '.')
    case None => ""
    case Some(k) => if k == 0 || b == ".." then "" else b[k..]
  }

  /** An extension is empty or one '.' followed by dot-free, slash-free text
      that ends the last path segment. */
  lemma ExtnameShape(p: string)
    ensures var e := Extname(p);
      e == "" ||
      (e[0] == '.' &&
       (forall j :: 1 <= j < |e| ==> e[j] != '.') &&
       (forall j :: 0 <= j < |e| ==> e[j] != '/') &&
       |e| <= |BaseName(p)| && BaseName(p)[|BaseName(p)| - |e|..] == e)
  {
    var b := BaseName(p);
    match LastIndexOf(b, '.')
    case None =>
    case Some(k) =>
      if k != 0 && b != ".." {
        var e := b[k..];
        assert forall j :: 1 <= j < |e| ==> e[j] == b[k + j];
      }
  }

  lemma ExtnameExamples()
    ensures Extname("x.c") == ".c"
    ensures Extname(".c") == ""
    ensures Extname("..") == ""
    ensures Extname("a.b.c") == ".c"
  {
    assert LastIndexOf("x.c", '/') == None;
    assert LastIndexOf("x.c", '.') == Some(1);
    assert LastIndexOf(".c", '/') == None;
    assert LastIndexOf(".c", '.') == Some(0);
    assert LastIndexOf("a.b.c", '/') == None;
    assert LastIndexOf("a.b.c", '.') == Some(3);
  }
}
