/**
 * `order_by('name')` and `distinct()` over item rows. Names are compared
 * character by character (the binary collation); items with equal names may
 * come in either order, as in the database.
 */
module Ordering {
  import opened Records

  /** Lexicographic order on strings by character code. */
  predicate NameLe(a: string, b: string)
    decreases |a|
  {
    a == [] || (b != [] && (a[0] < b[0] || (a[0] == b[0] && NameLe(a[1..], b[1..]))))
  }

  lemma {:induction false} NameLeTotal(a: string, b: string)
    ensures NameLe(a, b) || NameLe(b, a)
    decreases |a|
  {
    if a != [] && b != [] && a[0] == b[0] {
      NameLeTotal(a[1..], b[1..]);
    }
  }

  lemma {:induction false} NameLeTransitive(a: string, b: string, c: string)
    requires NameLe(a, b) && NameLe(b, c)
    ensures NameLe(a, c)
    decreases |a|
  {
    if a != [] && b != [] && c != [] && a[0] == b[0] && b[0] == c[0] {
      NameLeTransitive(a[1..], b[1..], c[1..]);
    }
  }

  lemma {:induction false} NameLeAntisymmetric(a: string, b: string)
    requires NameLe(a, b) && NameLe(b, a)
    ensures a == b
    decreases |a|
  {
    if a != [] && b != [] {
      NameLeAntisymmetric(a[1..], b[1..]);
      assert a == [a[0]] + a[1..] && b == [b[0]] + b[1..];
    }
  }

  predicate SortedByName(rows: seq<Item>) {
    forall i, j :: 0 <= i < j < |rows| ==> NameLe(rows[i].name, rows[j].name)
  }

  predicate NoDuplicates<T(==)>(s: seq<T>) {
    forall i, j :: 0 <= i < j < |s| ==> s[i] != s[j]
  }

  lemma NameLeReflexive(a: string)
    ensures NameLe(a, a)
  {
    NameLeTotal(a, a);
  }

  /** A row at most every row of a sorted sequence can go in front of it. */
  lemma SortedCons(x: Item, s: seq<Item>)
    requires SortedByName(s)
    requires forall j :: 0 <= j < |s| ==> NameLe(x.name, s[j].name)
    ensures SortedByName([x] + s)
  {
    var r := [x] + s;
    forall i, j | 0 <= i < j < |r| ensures NameLe(r[i].name, r[j].name) {
      if i > 0 {
        assert r[i] == s[i - 1] && r[j] == s[j - 1];
      } else {
        assert r[j] == s[j - 1];
      }
    }
  }

  /** A lower bound of `x` and of every row of `s` bounds every row of a permutation of them. */
  lemma LowerBoundAll(lo: string, x: Item, s: seq<Item>, r: seq<Item>)
    requires NameLe(lo, x.name)
    requires forall j :: 0 <= j < |s| ==> NameLe(lo, s[j].name)
    requires multiset(r) == multiset(s) + multiset{x}
    ensures forall j :: 0 <= j < |r| ==> NameLe(lo, r[j].name)
  {
    forall j | 0 <= j < |r| ensures NameLe(lo, r[j].name) {
      assert r[j] in multiset(r);
      if r[j] != x {
        assert r[j] in multiset(s);
        var k :| 0 <= k < |s| && s[k] == r[j];
      }
    }
  }

  /** Puts `x` into a name-sorted sequence. */
  function Insert(x: Item, s: seq<Item>): (r: seq<Item>)
    requires SortedByName(s)
    ensures SortedByName(r)
    ensures multiset(r) == multiset(s) + multiset{x}
  {
    if s == [] then
      [x]
    else if NameLe(x.name, s[0].name) then
      forall j | 0 <= j < |s| ensures NameLe(x.name, s[j].name) {
        if j > 0 { NameLeTransitive(x.name, s[0].name, s[j].name); }
      }
      SortedCons(x, s);
      [x] + s
    else
      NameLeTotal(x.name, s[0].name);
      var tail := s[1..];
      assert forall j :: 0 <= j < |tail| ==> NameLe(s[0].name, tail[j].name) by {
        forall j | 0 <= j < |tail| ensures NameLe(s[0].name, tail[j].name) {
          assert tail[j] == s[j + 1];
        }
      }
      var rest := Insert(x, tail);
      LowerBoundAll(s[0].name, x, tail, rest);
      SortedCons(s[0], rest);
      assert s == [s[0]] + tail;
      [s[0]] + rest
  }

  /** `order_by('name')`: a name-sorted permutation. */
  function SortByName(rows: seq<Item>): (r: seq<Item>)
    ensures SortedByName(r)
    ensures multiset(r) == multiset(rows)
  {
    if rows == [] then []
    else
      assert rows == [rows[0]] + rows[1..];
      Insert(rows[0], SortByName(rows[1..]))
  }

  /** `distinct()`: the first occurrence of each row, in order. */
  function Distinct(rows: seq<Item>): (r: seq<Item>)
    ensures NoDuplicates(r)
    ensures forall x :: x in r <==> x in rows
    ensures SortedByName(rows) ==> SortedByName(r)
  {
    if rows == [] then []
    else
      var init := rows[..|rows| - 1];
      var last := rows[|rows| - 1];
      var d := Distinct(init);
      assert forall x :: x in rows <==> x in init || x == last;
      if last in d then
        d
      else
        var r := d + [last];
        assert SortedByName(rows) ==> forall i :: 0 <= i < |d| ==> NameLe(d[i].name, last.name) by {
          if SortedByName(rows) {
            forall i | 0 <= i < |d| ensures NameLe(d[i].name, last.name) {
              assert d[i] in d;
              assert d[i] in init;
              var k :| 0 <= k < |init| && init[k] == d[i];
              assert rows[k] == d[i];
            }
          }
        }
        r
  }

  function Names(rows: seq<Item>): (ns: seq<string>)
    ensures |ns| == |rows|
    ensures forall i :: 0 <= i < |rows| ==> ns[i] == rows[i].name
  {
    seq(|rows|, i requires 0 <= i < |rows| => rows[i].name)
  }

  predicate SortedStrings(ns: seq<string>) {
    forall i, j :: 0 <= i < j < |ns| ==> NameLe(ns[i], ns[j])
  }

  /** The head of a sorted sequence of strings is at most each of its elements. */
  lemma HeadIsLeast(xs: seq<string>, x: string)
    requires SortedStrings(xs)
    requires x in multiset(xs)
    ensures NameLe(xs[0], x)
  {
    var j :| 0 <= j < |xs| && xs[j] == x;
    if j == 0 {
      NameLeReflexive(x);
    }
  }

  /** Dropping the head removes one occurrence of it. */
  lemma DropHead<T>(xs: seq<T>)
    requires xs != []
    ensures multiset(xs[1..]) == multiset(xs) - multiset{xs[0]}
  {
    assert xs == [xs[0]] + xs[1..];
  }

  lemma SortedStringsTail(xs: seq<string>)
    requires xs != [] && SortedStrings(xs)
    ensures SortedStrings(xs[1..])
  {
    var t := xs[1..];
    forall i, j | 0 <= i < j < |t| ensures NameLe(t[i], t[j]) {
      assert t[i] == xs[i + 1] && t[j] == xs[j + 1];
    }
  }

  /** Two sorted, non-empty permutations of each other start with the same string. */
  lemma SortedHeadsEqual(xs: seq<string>, ys: seq<string>)
    requires SortedStrings(xs) && SortedStrings(ys)
    requires multiset(xs) == multiset(ys)
    requires xs != []
    ensures ys != [] && xs[0] == ys[0]
  {
    assert xs[0] in multiset(ys);
    assert ys[0] in multiset(xs);
    HeadIsLeast(xs, ys[0]);
    HeadIsLeast(ys, xs[0]);
    NameLeAntisymmetric(xs[0], ys[0]);
  }

  /** Permutations with the same head have tails that are permutations. */
  lemma TailsPermutation<T>(xs: seq<T>, ys: seq<T>)
    requires multiset(xs) == multiset(ys)
    requires xs != [] && ys != [] && xs[0] == ys[0]
    ensures multiset(xs[1..]) == multiset(ys[1..])
  {
    DropHead(xs);
    DropHead(ys);
  }

  lemma ConsEqual<T>(xs: seq<T>, ys: seq<T>)
    requires xs != [] && ys != [] && xs[0] == ys[0] && xs[1..] == ys[1..]
    ensures xs == ys
  {
    assert xs == [xs[0]] + xs[1..] && ys == [ys[0]] + ys[1..];
  }

  /** Two sorted sequences of strings with the same elements are equal. */
  lemma {:induction false} SortedStringsUnique(xs: seq<string>, ys: seq<string>)
    requires SortedStrings(xs) && SortedStrings(ys)
    requires multiset(xs) == multiset(ys)
    ensures xs == ys
    decreases |xs|
  {
    if xs == [] {
      assert |ys| == |multiset(ys)| == 0;
    } else {
      SortedHeadsEqual(xs, ys);
      TailsPermutation(xs, ys);
      SortedStringsTail(xs);
      SortedStringsTail(ys);
      SortedStringsUnique(xs[1..], ys[1..]);
      ConsEqual(xs, ys);
    }
  }

  /** Removing position `k` removes one occurrence of `s[k]`. */
  lemma RemoveAt<T>(s: seq<T>, k: nat)
    requires k < |s|
    ensures multiset(s[..k] + s[k + 1..]) == multiset(s) - multiset{s[k]}
  {
    assert s == s[..k] + [s[k]] + s[k + 1..];
  }

  /** The names of a row sequence with one position removed. */
  lemma NamesRemoveAt(b: seq<Item>, k: nat)
    requires k < |b|
    ensures Names(b[..k] + b[k + 1..]) == Names(b)[..k] + Names(b)[k + 1..]
  {
  }

  /** Putting back the row removed at position `k` of `b` in front of `a`'s tail. */
  lemma NamesRemoveOne(a: seq<Item>, b: seq<Item>, k: nat)
    requires a != [] && k < |b| && b[k] == a[0]
    requires multiset(Names(a[1..])) == multiset(Names(b[..k] + b[k + 1..]))
    ensures multiset(Names(a)) == multiset(Names(b))
  {
    var na, nb := Names(a), Names(b);
    NamesRemoveAt(b, k);
    RemoveAt(nb, k);
    assert nb[k] == a[0].name;
    assert na == [nb[k]] + Names(a[1..]);
    assert multiset(na) == multiset{nb[k]} + multiset(Names(b[..k] + b[k + 1..]));
    assert nb[k] in multiset(nb);
  }

  /** Dropping the head of `a` and position `k` of `b` keeps two permutations permutations. */
  lemma PermutationRemove<T>(a: seq<T>, b: seq<T>, k: nat)
    requires multiset(a) == multiset(b)
    requires a != [] && k < |b| && b[k] == a[0]
    ensures multiset(a[1..]) == multiset(b[..k] + b[k + 1..])
  {
    DropHead(a);
    RemoveAt(b, k);
  }

  /** Permuting rows permutes their names. */
  lemma {:induction false} NamesPermutation(a: seq<Item>, b: seq<Item>)
    requires multiset(a) == multiset(b)
    ensures multiset(Names(a)) == multiset(Names(b))
    decreases |a|
  {
    if a == [] {
      assert |b| == |multiset(b)| == 0;
    } else {
      assert a[0] in multiset(b);
      var k :| 0 <= k < |b| && b[k] == a[0];
      PermutationRemove(a, b, k);
      NamesPermutation(a[1..], b[..k] + b[k + 1..]);
      NamesRemoveOne(a, b, k);
    }
  }

  /** In a duplicate-free sequence every element occurs exactly once. */
  lemma {:induction false} OccursOnce<T>(s: seq<T>, x: T)
    requires NoDuplicates(s)
    ensures multiset(s)[x] == if x in s then 1 else 0
    decreases |s|
  {
    if s != [] {
      assert s == [s[0]] + s[1..];
      assert NoDuplicates(s[1..]) by {
        forall i, j | 0 <= i < j < |s[1..]| ensures s[1..][i] != s[1..][j] {
          assert s[i + 1] != s[j + 1];
        }
      }
      OccursOnce(s[1..], x);
      if x == s[0] {
        assert x !in s[1..] by {
          forall i | 0 <= i < |s[1..]| ensures s[1..][i] != x {
            assert s[0] != s[i + 1];
          }
        }
      }
    }
  }

  /** Duplicate-free sequences with the same elements are permutations of each other. */
  lemma SameElementsPermutation<T>(a: seq<T>, b: seq<T>)
    requires NoDuplicates(a) && NoDuplicates(b)
    requires forall x :: x in a <==> x in b
    ensures multiset(a) == multiset(b)
  {
    forall x ensures multiset(a)[x] == multiset(b)[x] {
      OccursOnce(a, x);
      OccursOnce(b, x);
    }
  }

  /**
   * Two duplicate-free, name-sorted sequences of the same rows list the
   * same names in the same order: they differ at most in the order of rows
   * that share a name.
   */
  lemma ListingsAgree(a: seq<Item>, b: seq<Item>)
    requires NoDuplicates(a) && NoDuplicates(b) && SortedByName(a) && SortedByName(b)
    requires forall x :: x in a <==> x in b
    ensures |a| == |b| && Names(a) == Names(b)
  {
    SameElementsPermutation(a, b);
    NamesPermutation(a, b);
    SortedStringsUnique(Names(a), Names(b));
  }
}
