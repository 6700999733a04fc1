/** Facts about finite sequences that several components share. */
module Sequences {

  datatype Option<+T> = None | Some(value: T)

  function Min(a: int, b: int): int { if a <= b then a else b }

  function Max(a: int, b: int): int { if a <= b then b else a }

  ghost predicate NoDuplicates<T(!new)>(s: seq<T>) {
    forall i, j | 0 <= i < j < |s| :: s[i] != s[j]
  }

  function Members<T(!new)>(s: seq<T>): set<T> { set x | x in s }

  /** s with every occurrence of x removed. */
  function Without<T(==,!new)>(s: seq<T>, x: T): (r: seq<T>)
    ensures |r| <= |s|
  {
    if s == [] then []
    else if s[0] == x then Without(s[1..], x)
    else [s[0]] + Without(s[1..], x)
  }

  /** The first n elements of s, or all of s when it is shorter. */
  function Take<T>(s: seq<T>, n: nat): (r: seq<T>)
    ensures |r| == Min(n, |s|) && r <= s
  {
    if |s| <= n then s else s[..n]
  }

  ghost function Pick<T>(s: set<T>): (x: T)
    requires s != {}
    ensures x in s
  {
    var x :| x in s; x
  }

  ghost function KeyOf<K, V>(m: map<K, V>, v: V): (k: K)
    requires v in m.Values
    ensures k in m && m[k] == v
  {
    var k :| k in m && m[k] == v; k
  }

  lemma RemoveTwice<K, V>(m: map<K, V>, a: set<K>, b: set<K>)
    ensures m - a - b == m - (a + b)
  {
  }

  method Choose<T>(s: set<T>) returns (x: T)
    requires s != {}
    ensures x in s
  {
    x :| x in s;
  }

  /** a can be obtained from b by deleting elements. */
  ghost predicate IsSubsequence<T>(a: seq<T>, b: seq<T>) {
    a == [] || (b != [] && ((a[0] == b[0] && IsSubsequence(a[1..], b[1..])) || IsSubsequence(a, b[1..])))
  }

  lemma {:induction false} WithoutMembers<T(!new)>(s: seq<T>, x: T)
    ensures forall y :: y in Without(s, x) <==> y in s && y != x
  {
    if s != [] {
      WithoutMembers(s[1..], x);
      assert s == [s[0]] + s[1..];
    }
  }

  lemma {:induction false} WithoutAbsent<T(!new)>(s: seq<T>, x: T)
    requires x !in s
    ensures Without(s, x) == s
  {
    if s != [] { WithoutAbsent(s[1..], x); }
  }

  lemma {:induction false} WithoutConcat<T(!new)>(a: seq<T>, b: seq<T>, x: T)
    ensures Without(a + b, x) == Without(a, x) + Without(b, x)
  {
    if a == [] {
      assert a + b == b;
    } else {
      assert (a + b)[1..] == a[1..] + b;
      WithoutConcat(a[1..], b, x);
    }
  }

  lemma {:induction false} WithoutNoDuplicates<T(!new)>(s: seq<T>, x: T)
    requires NoDuplicates(s)
    ensures NoDuplicates(Without(s, x))
    ensures |Without(s, x)| == if x in s then |s| - 1 else |s|
  {
    if s != [] {
      WithoutNoDuplicates(s[1..], x);
      if s[0] == x {
        WithoutAbsent(s[1..], x);
      } else {
        WithoutMembers(s[1..], x);
        NoDuplicatesCons(s[0], Without(s[1..], x));
      }
    }
  }

  lemma WithoutSize<T(!new)>(s: seq<T>, x: T)
    requires NoDuplicates(s)
    ensures |Without(s, x)| == if x in s then |s| - 1 else |s|
  {
    WithoutNoDuplicates(s, x);
  }

  lemma NoDuplicatesCons<T(!new)>(x: T, s: seq<T>)
    ensures NoDuplicates([x] + s) <==> NoDuplicates(s) && x !in s
  {
    var t := [x] + s;
    if NoDuplicates(t) {
      forall i, j | 0 <= i < j < |s| ensures s[i] != s[j] {
        assert t[i + 1] == s[i] && t[j + 1] == s[j];
      }
      forall i | 0 <= i < |s| ensures s[i] != x {
        assert t[0] == x && t[i + 1] == s[i];
      }
    }
  }

  lemma {:induction false} MembersSize<T(!new)>(s: seq<T>)
    requires NoDuplicates(s)
    ensures |Members(s)| == |s|
  {
    if s != [] {
      MembersSize(s[1..]);
      assert s == [s[0]] + s[1..];
      NoDuplicatesCons(s[0], s[1..]);
      assert Members(s) == {s[0]} + Members(s[1..]);
    }
  }

  lemma {:induction false} SubsequenceMembers<T(!new)>(a: seq<T>, b: seq<T>)
    requires IsSubsequence(a, b)
    ensures |a| <= |b| && forall x | x in a :: x in b
    ensures |a| == |b| ==> a == b
    decreases |b|
  {
    if a != [] {
      if a[0] == b[0] && IsSubsequence(a[1..], b[1..]) {
        SubsequenceMembers(a[1..], b[1..]);
        assert a == [a[0]] + a[1..] && b == [b[0]] + b[1..];
      } else {
        SubsequenceMembers(a, b[1..]);
      }
    }
  }

  lemma SubsequenceCons<T>(x: T, a: seq<T>, b: seq<T>)
    requires IsSubsequence(a, b)
    ensures IsSubsequence([x] + a, [x] + b)
  {
    assert ([x] + a)[1..] == a && ([x] + b)[1..] == b;
  }

  /** Removing x from both sides keeps the subsequence relation. */
  lemma {:induction false} SubsequenceWithout<T(!new)>(a: seq<T>, b: seq<T>, x: T)
    requires IsSubsequence(a, b)
    ensures IsSubsequence(Without(a, x), Without(b, x))
    decreases |b|
  {
    if a != [] {
      if a[0] == b[0] && IsSubsequence(a[1..], b[1..]) {
        SubsequenceWithout(a[1..], b[1..], x);
      } else {
        SubsequenceWithout(a, b[1..], x);
        if b[0] != x { SubsequenceSkip(Without(a, x), Without(b[1..], x), b[0]); }
      }
    }
  }

  lemma SubsequenceSkip<T>(a: seq<T>, b: seq<T>, x: T)
    requires IsSubsequence(a, b)
    ensures IsSubsequence(a, [x] + b)
  {
    assert ([x] + b)[1..] == b;
  }

  /** Dropping the last element of the smaller side, or of both, keeps the relation. */
  lemma {:induction false} SubsequenceDropLast<T(!new)>(a: seq<T>, b: seq<T>)
    requires IsSubsequence(a, b) && a != []
    ensures IsSubsequence(a[..|a| - 1], b[..|b| - 1])
    decreases |b|
  {
    SubsequenceMembers(a, b);
    if |a| > 1 {
      if a[0] == b[0] && IsSubsequence(a[1..], b[1..]) {
        SubsequenceDropLast(a[1..], b[1..]);
        assert a[1..][..|a| - 2] == a[..|a| - 1][1..];
        assert b[1..][..|b| - 2] == b[..|b| - 1][1..];
      } else {
        SubsequenceDropLast(a, b[1..]);
        assert b[1..][..|b| - 2] == b[..|b| - 1][1..];
      }
    }
  }

  lemma {:induction false} SubsequencePrefix<T>(a: seq<T>, n: nat, b: seq<T>)
    requires n <= |a| && IsSubsequence(a, b)
    ensures IsSubsequence(a[..n], b)
    decreases |b|
  {
    if n > 0 {
      if a[0] == b[0] && IsSubsequence(a[1..], b[1..]) {
        SubsequencePrefix(a[1..], n - 1, b[1..]);
        assert a[1..][..n - 1] == a[..n][1..];
      } else {
        SubsequencePrefix(a, n, b[1..]);
      }
    }
  }

  lemma Snoc<T>(s: seq<T>)
    requires s != []
    ensures s == s[..|s| - 1] + [s[|s| - 1]]
  {
  }

  lemma ConcatSnoc<T>(a: seq<T>, b: seq<T>)
    requires b != []
    ensures a + b == a + b[..|b| - 1] + [b[|b| - 1]]
  {
  }
}
