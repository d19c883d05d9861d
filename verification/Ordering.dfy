/**
  Sorting as `sort_by` does it, the order of strings, and permutations given
  by the positions they pick.
*/
module Ordering {

  // --- The order of strings --------------------------------------------------------------------

  /** `str::cmp`: by code points, which is the order of the UTF-8 bytes. */
  predicate StringLe(a: string, b: string) {
    a == [] || (b != [] && (a[0] < b[0] || (a[0] == b[0] && StringLe(a[1..], b[1..]))))
  }

  lemma {:induction false} StringLeTotal(a: string, b: string)
    ensures StringLe(a, b) || StringLe(b, a)
  {
    if a != [] && b != [] && a[0] == b[0] {
      StringLeTotal(a[1..], b[1..]);
    }
  }

  lemma {:induction false} StringLeAntisymmetric(a: string, b: string)
    requires StringLe(a, b) && StringLe(b, a)
    ensures a == b
  {
    if a != [] && b != [] {
      StringLeAntisymmetric(a[1..], b[1..]);
      assert a == [a[0]] + a[1..] && b == [b[0]] + b[1..];
    }
  }

  lemma {:induction false} StringLeTransitive(a: string, b: string, c: string)
    requires StringLe(a, b) && StringLe(b, c)
    ensures StringLe(a, c)
  {
    if a != [] && a[0] == b[0] && b[0] == c[0] {
      StringLeTransitive(a[1..], b[1..], c[1..]);
    }
  }

  // --- Sorting ---------------------------------------------------------------------------------

  ghost predicate TotalOrder<T(!new)>(le: (T, T) -> bool) {
    && (forall x, y :: le(x, y) || le(y, x))
    && (forall x, y, z :: le(x, y) && le(y, z) ==> le(x, z))
  }

  /** No two different elements of `s` are equal in the order. */
  ghost predicate Strict<T>(le: (T, T) -> bool, s: seq<T>) {
    forall x, y | x in s && y in s && le(x, y) && le(y, x) :: x == y
  }

  predicate Sorted<T>(le: (T, T) -> bool, s: seq<T>) {
    forall i, j | 0 <= i < j < |s| :: le(s[i], s[j])
  }

  function Insert<T>(le: (T, T) -> bool, x: T, s: seq<T>): seq<T> {
    if s == [] || le(x, s[0]) then [x] + s else [s[0]] + Insert(le, x, s[1..])
  }

  /** Stable sorting. */
  function Sort<T>(le: (T, T) -> bool, s: seq<T>): seq<T> {
    if s == [] then [] else Insert(le, s[0], Sort(le, s[1..]))
  }

  lemma {:induction false} InsertContents<T>(le: (T, T) -> bool, x: T, s: seq<T>)
    ensures multiset(Insert(le, x, s)) == multiset{x} + multiset(s)
  {
    if s != [] && !le(x, s[0]) {
      InsertContents(le, x, s[1..]);
      assert s == [s[0]] + s[1..];
    }
  }

  lemma {:induction false} SortContents<T>(le: (T, T) -> bool, s: seq<T>)
    ensures multiset(Sort(le, s)) == multiset(s)
  {
    if s != [] {
      SortContents(le, s[1..]);
      InsertContents(le, s[0], Sort(le, s[1..]));
      assert s == [s[0]] + s[1..];
    }
  }

  lemma {:induction false} InsertSorts<T(!new)>(le: (T, T) -> bool, x: T, s: seq<T>)
    requires TotalOrder(le) && Sorted(le, s)
    ensures Sorted(le, Insert(le, x, s))
  {
    if s != [] {
      if le(x, s[0]) {
        forall i | 0 <= i < |s| ensures le(x, s[i]) {
          assert i > 0 ==> le(s[0], s[i]);
        }
      } else {
        InsertSorts(le, x, s[1..]);
        var rest := Insert(le, x, s[1..]);
        InsertContents(le, x, s[1..]);
        forall i | 0 <= i < |rest| ensures le(s[0], rest[i]) {
          assert rest[i] in multiset(rest);
          if rest[i] != x {
            assert rest[i] in s[1..];
          }
        }
      }
    }
  }

  lemma {:induction false} SortSorts<T(!new)>(le: (T, T) -> bool, s: seq<T>)
    requires TotalOrder(le)
    ensures Sorted(le, Sort(le, s))
  {
    if s != [] {
      SortSorts(le, s[1..]);
      InsertSorts(le, s[0], Sort(le, s[1..]));
    }
  }

  lemma SameHead<T>(le: (T, T) -> bool, a: seq<T>, b: seq<T>)
    requires Sorted(le, a) && Sorted(le, b) && Strict(le, a) && a != [] && b != []
    requires a[0] in b && b[0] in a
    ensures a[0] == b[0]
  {
    var i :| 0 <= i < |b| && b[i] == a[0];
    var j :| 0 <= j < |a| && a[j] == b[0];
    assert j == 0 || le(a[0], a[j]);
    assert i == 0 || le(b[0], b[i]);
  }

  lemma RestContents<T>(s: seq<T>)
    requires s != []
    ensures s == [s[0]] + s[1..] && multiset(s[1..]) == multiset(s) - multiset{s[0]}
  {
    assert s == [s[0]] + s[1..];
  }

  lemma RestStrict<T>(le: (T, T) -> bool, s: seq<T>)
    requires s != [] && Sorted(le, s) && Strict(le, s)
    ensures Sorted(le, s[1..]) && Strict(le, s[1..])
  {
  }

  /** Sorted lists of the same elements are equal, if the order tells the elements apart. */
  lemma {:induction false} SortedUnique<T>(le: (T, T) -> bool, a: seq<T>, b: seq<T>)
    requires Sorted(le, a) && Sorted(le, b) && multiset(a) == multiset(b) && Strict(le, a)
    ensures a == b
  {
    assert |a| == |multiset(a)| == |multiset(b)| == |b|;
    if a != [] {
      assert a[0] in multiset(b) && b[0] in multiset(a);
      SameHead(le, a, b);
      RestContents(a);
      RestContents(b);
      RestStrict(le, a);
      SortedUnique(le, a[1..], b[1..]);
    }
  }

  // --- Permutations ------------------------------------------------------------------------------

  ghost predicate Permutation(p: seq<nat>, n: nat) {
    && |p| == n
    && (forall i | 0 <= i < n :: p[i] < n)
    && (forall i, j | 0 <= i < j < n :: p[i] != p[j])
  }

  function Without<T>(s: seq<T>, k: nat): seq<T>
    requires k < |s|
  {
    s[..k] + s[k + 1..]
  }

  lemma WithoutContents<T>(s: seq<T>, k: nat)
    requires k < |s|
    ensures multiset(s) == multiset(Without(s, k)) + multiset{s[k]}
  {
    assert s == s[..k] + ([s[k]] + s[k + 1..]);
  }

  /** Picking through a permutation keeps the elements. */
  lemma {:induction false} PermutedContents<T>(a: seq<T>, b: seq<T>, p: seq<nat>)
    requires |a| == |b| && Permutation(p, |a|)
    requires forall i | 0 <= i < |a| :: a[i] == b[p[i]]
    ensures multiset(a) == multiset(b)
    decreases |a|
  {
    if a != [] {
      var n := |a| - 1;
      var k := p[n];
      var p' := seq(n, i requires 0 <= i < n => if p[i] > k then p[i] - 1 else p[i]);
      forall i | 0 <= i < n ensures p'[i] < n && a[..n][i] == Without(b, k)[p'[i]] {
        assert p[i] != p[n];
      }
      forall i, j | 0 <= i < j < n ensures p'[i] != p'[j] {
        assert p[i] != p[j] && p[i] != p[n] && p[j] != p[n];
      }
      PermutedContents(a[..n], Without(b, k), p');
      WithoutContents(b, k);
      assert a == a[..n] + [a[n]];
    }
  }

  /** Lists with the same elements are permutations of each other. */
  lemma {:induction false} FindPermutation<T>(a: seq<T>, b: seq<T>) returns (p: seq<nat>)
    requires multiset(a) == multiset(b)
    ensures |a| == |b| && Permutation(p, |a|)
    ensures forall i | 0 <= i < |a| :: a[i] == b[p[i]]
    decreases |a|
  {
    assert |a| == |multiset(a)| == |multiset(b)| == |b|;
    if a == [] {
      p := [];
    } else {
      var n := |a| - 1;
      assert a == a[..n] + [a[n]];
      assert a[n] in multiset(b);
      var k: nat :| k < |b| && b[k] == a[n];
      WithoutContents(b, k);
      assert multiset(a[..n]) == multiset(a) - multiset{a[n]};
      var p' := FindPermutation(a[..n], Without(b, k));
      p := ExtendPermutation(a, b, k, p');
    }
  }

  lemma ExtendPermutation<T>(a: seq<T>, b: seq<T>, k: nat, p': seq<nat>) returns (p: seq<nat>)
    requires |a| == |b| > 0 && k < |b| && b[k] == a[|a| - 1]
    requires Permutation(p', |a| - 1)
    requires forall i | 0 <= i < |p'| :: a[i] == Without(b, k)[p'[i]]
    ensures Permutation(p, |a|)
    ensures forall i | 0 <= i < |a| :: a[i] == b[p[i]]
  {
    var n := |a| - 1;
    p := seq(n, i requires 0 <= i < n => if p'[i] >= k then p'[i] + 1 else p'[i]) + [k];
    forall i, j | 0 <= i < j < n ensures p[i] != p[j] {
      assert p'[i] != p'[j];
    }
  }
}
