/** Strings as the Go code orders them, and sorting by a string key.

Go's `sort.Slice` promises a permutation ordered by the key.  When the keys are
pairwise distinct that output is unique, so the caller cannot observe in which
order the elements were put in; `SortIsCanonical` is that fact.
*/
module Text {

  /** Go's `<` on strings: lexicographic on code points (as on their UTF-8 bytes). */
  predicate Less(a: string, b: string)
  {
    if b == [] then false
    else if a == [] then true
    else if a[0] == b[0] then Less(a[1..], b[1..])
    else a[0] < b[0]
  }

  lemma {:induction false} LessIrreflexive(a: string)
    ensures !Less(a, a)
  {
    if a == [] {
    } else {
      LessIrreflexive(a[1..]);
    }
  }

  lemma {:induction false} LessTransitive(a: string, b: string, c: string)
    requires Less(a, b) && Less(b, c)
    ensures Less(a, c)
  {
    if a == [] {
    } else if a[0] == b[0] && b[0] == c[0] {
      LessTransitive(a[1..], b[1..], c[1..]);
    }
  }

  lemma {:induction false} LessTotal(a: string, b: string)
    ensures Less(a, b) || a == b || Less(b, a)
  {
    if a == [] || b == [] {
    } else if a[0] == b[0] {
      LessTotal(a[1..], b[1..]);
      assert a == [a[0]] + a[1..] && b == [b[0]] + b[1..];
    }
  }

  /** Up to place k the strings are the same, and there the first has ended or has the smaller character. */
  ghost predicate SmallerAt(a: string, b: string, k: nat)
  {
    k <= |a| && k < |b| && a[..k] == b[..k] && (k < |a| ==> a[k] < b[k])
  }

  /** What `Less` means: at the first place where the strings differ, the smaller one has ended or has
  the smaller character. */
  lemma {:induction false} LessMeans(a: string, b: string)
    ensures Less(a, b) <==> exists k: nat :: SmallerAt(a, b, k)
  {
    if a != [] && b != [] && a[0] == b[0] {
      LessMeans(a[1..], b[1..]);
      forall k: nat ensures SmallerAt(a, b, k + 1) <==> SmallerAt(a[1..], b[1..], k) {
        SmallerLater(a, b, k);
      }
      if k: nat :| SmallerAt(a, b, k) {
        assert k > 0;
        SmallerLater(a, b, k - 1);
      }
      if k: nat :| SmallerAt(a[1..], b[1..], k) {
        assert SmallerAt(a, b, k + 1);
      }
    } else {
      assert SmallerAt(a, b, 0) <==> b != [] && (a == [] || a[0] < b[0]);
      forall k: nat | SmallerAt(a, b, k) ensures k == 0 {
        if k > 0 { SameStart(a, b, k); }
      }
    }
  }

  lemma SmallerLater(a: string, b: string, k: nat)
    requires a != [] && b != [] && a[0] == b[0]
    ensures SmallerAt(a, b, k + 1) <==> SmallerAt(a[1..], b[1..], k)
  {
    if k < |a| && k + 1 <= |b| {
      assert a[..k + 1] == [a[0]] + a[1..][..k] && b[..k + 1] == [b[0]] + b[1..][..k];
    }
  }

  lemma SameStart(a: string, b: string, k: nat)
    requires k > 0 && SmallerAt(a, b, k)
    ensures a != [] && b != [] && a[0] == b[0]
  {
    assert a[..k][0] == b[..k][0];
  }

  /** Strictly increasing in the key: sorted, and no two elements share a key. */
  ghost predicate Ascending<T>(key: T -> string, s: seq<T>)
  {
    forall i, j :: 0 <= i < j < |s| ==> Less(key(s[i]), key(s[j]))
  }

  ghost predicate DistinctKeys<T>(key: T -> string, s: seq<T>)
  {
    forall i, j :: 0 <= i < j < |s| ==> key(s[i]) != key(s[j])
  }

  lemma DistinctConcat<T>(key: T -> string, s: seq<T>, t: seq<T>)
    requires DistinctKeys(key, s) && DistinctKeys(key, t)
    requires forall i, j :: 0 <= i < |s| && 0 <= j < |t| ==> key(s[i]) != key(t[j])
    ensures DistinctKeys(key, s + t)
  {
    var r := s + t;
    forall i, j | 0 <= i < j < |r| ensures key(r[i]) != key(r[j]) {
      if j < |s| {
        assert r[i] == s[i] && r[j] == s[j];
      } else if i < |s| {
        assert r[i] == s[i] && r[j] == t[j - |s|];
      } else {
        assert r[i] == t[i - |s|] && r[j] == t[j - |s|];
      }
    }
  }

  function Insert<T(!new)>(key: T -> string, x: T, s: seq<T>): (r: seq<T>)
    ensures |r| == |s| + 1
    ensures multiset(r) == multiset(s) + multiset{x}
    ensures forall y :: y in r <==> y == x || y in s
  {
    if s == [] || Less(key(x), key(s[0])) then [x] + s
    else
      assert s == [s[0]] + s[1..];
      var t := Insert(key, x, s[1..]);
      [s[0]] + t
  }

  /** `sort.Slice` with the comparison `key(i) < key(j)`. */
  function SortBy<T(!new)>(key: T -> string, s: seq<T>): (r: seq<T>)
    ensures |r| == |s|
    ensures multiset(r) == multiset(s)
    ensures forall y :: y in r <==> y in s
  {
    if s == [] then []
    else
      assert s == [s[0]] + s[1..];
      Insert(key, s[0], SortBy(key, s[1..]))
  }

  lemma {:induction false} InsertAscending<T(!new)>(key: T -> string, x: T, s: seq<T>)
    requires Ascending(key, s)
    requires forall y :: y in s ==> key(y) != key(x)
    ensures Ascending(key, Insert(key, x, s))
  {
    var r := Insert(key, x, s);
    if s == [] {
    } else if Less(key(x), key(s[0])) {
      forall j | 0 <= j < |s| ensures Less(key(x), key(s[j])) {
        if j > 0 { LessTransitive(key(x), key(s[0]), key(s[j])); }
      }
    } else {
      var t := Insert(key, x, s[1..]);
      InsertAscending(key, x, s[1..]);
      assert s[0] in s;
      LessTotal(key(x), key(s[0]));
      forall j | 0 <= j < |t| ensures Less(key(s[0]), key(t[j])) {
        assert t[j] in t;
      }
      assert r == [s[0]] + t;
    }
  }

  lemma {:induction false} SortAscending<T(!new)>(key: T -> string, s: seq<T>)
    requires DistinctKeys(key, s)
    ensures Ascending(key, SortBy(key, s))
  {
    if s == [] {
    } else {
      SortAscending(key, s[1..]);
      forall y | y in SortBy(key, s[1..]) ensures key(y) != key(s[0]) {
        var i :| 0 <= i < |s[1..]| && s[1..][i] == y;
        assert s[i + 1] == y;
      }
      InsertAscending(key, s[0], SortBy(key, s[1..]));
    }
  }

  /** Two ascending sequences with the same elements are the same sequence. */
  lemma {:induction false} AscendingUnique<T(!new)>(key: T -> string, s: seq<T>, t: seq<T>)
    requires Ascending(key, s) && Ascending(key, t)
    requires forall y :: y in s <==> y in t
    ensures s == t
  {
    assert t != [] ==> t[0] in t;
    if s == [] {
    } else {
      assert s[0] in s;
      var k :| 0 <= k < |t| && t[k] == s[0];
      assert t[0] in t;
      var m :| 0 <= m < |s| && s[m] == t[0];
      LessIrreflexive(key(s[0]));
      if k > 0 && m > 0 {
        LessTransitive(key(t[0]), key(s[0]), key(t[0]));
        LessIrreflexive(key(t[0]));
        assert false;
      }
      assert s[0] == t[0];
      forall y ensures y in s[1..] <==> y in t[1..] {
        LessIrreflexive(key(y));
        if y in s[1..] {
          var i :| 0 < i < |s| && s[i] == y;
          assert y in t;
          var j :| 0 <= j < |t| && t[j] == y;
          assert j != 0;
          assert t[1..][j - 1] == y;
        }
        if y in t[1..] {
          var i :| 0 < i < |t| && t[i] == y;
          assert y in s;
          var j :| 0 <= j < |s| && s[j] == y;
          assert j != 0;
          assert s[1..][j - 1] == y;
        }
      }
      AscendingUnique(key, s[1..], t[1..]);
    }
  }

  /** Sorting forgets the insertion order. */
  lemma SortIsCanonical<T(!new)>(key: T -> string, s: seq<T>, t: seq<T>)
    requires DistinctKeys(key, s) && DistinctKeys(key, t)
    requires forall y :: y in s <==> y in t
    ensures SortBy(key, s) == SortBy(key, t)
  {
    SortAscending(key, s);
    SortAscending(key, t);
    AscendingUnique(key, SortBy(key, s), SortBy(key, t));
  }

  /** Text before the first separator and text after it are determined by the whole. */
  lemma SplitUnique(separator: char, a: string, b: string, x: string, y: string)
    requires separator !in a && separator !in b
    requires a + [separator] + x == b + [separator] + y
    ensures a == b && x == y
  {
    var s, t := a + [separator] + x, b + [separator] + y;
    assert s[|a|] == separator && forall i :: 0 <= i < |a| ==> s[i] == a[i] && a[i] in a;
    assert t[|b|] == separator && forall i :: 0 <= i < |b| ==> t[i] == b[i] && b[i] in b;
    assert |a| == |b|;
    assert a == s[..|a|] == t[..|b|] == b;
    assert x == s[|a| + 1..] == t[|b| + 1..] == y;
  }
}
