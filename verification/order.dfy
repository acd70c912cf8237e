/**
 * Go's `<` on strings and the sorted sequences built with it. Go compares the
 * UTF-8 bytes of two strings; for Unicode scalar values this is the same order
 * as comparing code points one by one, which is what `Less` does.
 */
module Order {

  /** Lexicographic strict order: `a < b` in Go. */
  predicate Less(a: string, b: string)
    ensures Less(a, b) ==> a != b
    decreases |a|
  {
    if |a| == 0 then |b| > 0
    else if |b| == 0 then false
    else if a[0] != b[0] then a[0] < b[0]
    else Less(a[1..], b[1..])
  }

  lemma {:induction false} LessIrreflexive(a: string)
    ensures !Less(a, a)
    decreases |a|
  {
    if |a| > 0 {
      LessIrreflexive(a[1..]);
    }
  }

  lemma {:induction false} LessTransitive(a: string, b: string, c: string)
    requires Less(a, b) && Less(b, c)
    ensures Less(a, c)
    decreases |a|
  {
    if |a| > 0 && a[0] == b[0] && b[0] == c[0] {
      LessTransitive(a[1..], b[1..], c[1..]);
    }
  }

  /** Any two different strings are ordered one way or the other. */
  lemma {:induction false} LessTotal(a: string, b: string)
    requires a != b
    ensures Less(a, b) || Less(b, a)
    decreases |a|
  {
    if |a| > 0 && |b| > 0 && a[0] == b[0] {
      assert a == [a[0]] + a[1..] && b == [b[0]] + b[1..];
      LessTotal(a[1..], b[1..]);
    }
  }

  lemma LessAsymmetric(a: string, b: string)
    requires Less(a, b)
    ensures !Less(b, a)
  {
  }

  /** The identity key, for sorting plain strings. */
  function Id(s: string): (r: string) { s }

  /** `s` is strictly increasing by `key`: sorted, and no key occurs twice. */
  ghost predicate StrictlySorted<T>(s: seq<T>, key: T -> string) {
    forall i, j :: 0 <= i < j < |s| ==> Less(key(s[i]), key(s[j]))
  }

  lemma SortedCons<T>(x: T, s: seq<T>, key: T -> string)
    requires StrictlySorted(s, key)
    requires s != [] ==> Less(key(x), key(s[0]))
    ensures StrictlySorted([x] + s, key)
  {
    var r := [x] + s;
    forall i, j | 0 <= i < j < |r|
      ensures Less(key(r[i]), key(r[j]))
    {
      if i == 0 && j > 1 {
        LessTransitive(key(x), key(s[0]), key(s[j - 1]));
      }
    }
  }

  /**
   * Inserts `x` at its place in a strictly sorted sequence whose keys all
   * differ from `x`'s; the result is strictly sorted and holds exactly the old
   * elements and `x`.
   */
  function Insert<T(==, !new)>(s: seq<T>, x: T, key: T -> string): (r: seq<T>)
    requires StrictlySorted(s, key)
    requires forall i :: 0 <= i < |s| ==> key(s[i]) != key(x)
    ensures StrictlySorted(r, key)
    ensures |r| == |s| + 1
    ensures forall y :: y in r <==> y == x || y in s
  {
    if s == [] || Less(key(x), key(s[0])) then
      SortedCons(x, s, key);
      [x] + s
    else
      LessTotal(key(x), key(s[0]));
      var t := Insert(s[1..], x, key);
      assert t[0] in t;
      SortedCons(s[0], t, key);
      [s[0]] + t
  }

  /** Two strictly sorted sequences with the same elements are the same sequence. */
  lemma {:induction false} SortedUnique<T>(s: seq<T>, t: seq<T>, key: T -> string)
    requires StrictlySorted(s, key) && StrictlySorted(t, key)
    requires forall y :: y in s <==> y in t
    ensures s == t
    decreases |s|
  {
    assert |t| == 0 || t[0] in t;
    if s != [] {
      assert s[0] in s;
      assert t != [] && t[0] in t;
      if s[0] != t[0] {
        var i :| 0 <= i < |s| && s[i] == t[0];
        var j :| 0 <= j < |t| && t[j] == s[0];
        assert i > 0 && j > 0;
        LessAsymmetric(key(s[0]), key(t[0]));
      }
      forall y
        ensures y in s[1..] <==> y in t[1..]
      {
        if y in s[1..] {
          var i :| 1 <= i < |s| && s[i] == y;
          LessIrreflexive(key(s[0]));
          assert y != t[0];
          assert y in s;
          var j :| 0 <= j < |t| && t[j] == y;
          assert t[1..][j - 1] == y;
        }
        if y in t[1..] {
          var j :| 1 <= j < |t| && t[j] == y;
          LessIrreflexive(key(t[0]));
          assert y != s[0];
          assert y in t;
          var i :| 0 <= i < |s| && s[i] == y;
          assert s[1..][i - 1] == y;
        }
      }
      SortedUnique(s[1..], t[1..], key);
      assert s == [s[0]] + s[1..] && t == [t[0]] + t[1..];
    }
  }
}
