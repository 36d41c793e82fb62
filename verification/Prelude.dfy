/** Shared vocabulary: optional values, results, 64-bit counters, and the order of Rust strings. */
module Prelude {

  datatype Option<+T> = None | Some(value: T)

  datatype Result<+T, +E> = Ok(value: T) | Err(error: E)

  function Max(a: int, b: int): int {
    if a < b then b else a
  }

  function Min(a: int, b: int): int {
    if a < b then a else b
  }

  const U64_MAX: nat := 0xFFFF_FFFF_FFFF_FFFF

  type U64 = n: nat | n <= U64_MAX

  function SaturatingAdd(a: U64, b: U64): U64 {
    if a + b > U64_MAX then U64_MAX else a + b
  }

  /** Rust's `str` order: byte order of UTF-8, which is the order of code points. */
  predicate StrLt(a: string, b: string) {
    b != [] && (a == [] || a[0] < b[0] || (a[0] == b[0] && StrLt(a[1..], b[1..])))
  }

  predicate StrLe(a: string, b: string) {
    a == b || StrLt(a, b)
  }

  lemma StrLtIrreflexive(a: string)
    ensures !StrLt(a, a)
  {}

  lemma {:induction false} StrLtTotal(a: string, b: string)
    ensures StrLt(a, b) || a == b || StrLt(b, a)
    ensures !(StrLt(a, b) && StrLt(b, a))
  {
    if a != [] && b != [] {
      StrLtTotal(a[1..], b[1..]);
      assert a == [a[0]] + a[1..] && b == [b[0]] + b[1..];
    }
  }

  lemma {:induction false} StrLtTransitive(a: string, b: string, c: string)
    requires StrLt(a, b) && StrLt(b, c)
    ensures StrLt(a, c)
  {
    if a != [] && a[0] == b[0] && b[0] == c[0] {
      StrLtTransitive(a[1..], b[1..], c[1..]);
    }
  }

  /** `StrLt` is a strict total order; the quantified form for set reasoning. */
  lemma StrOrder()
    ensures forall a: string :: !StrLt(a, a)
    ensures forall a: string, b: string :: StrLt(a, b) || a == b || StrLt(b, a)
    ensures forall a: string, b: string, c: string :: StrLt(a, b) && StrLt(b, c) ==> StrLt(a, c)
  {
    forall a: string ensures !StrLt(a, a) { StrLtIrreflexive(a); }
    forall a: string, b: string ensures StrLt(a, b) || a == b || StrLt(b, a) { StrLtTotal(a, b); }
    forall a: string, b: string, c: string | StrLt(a, b) && StrLt(b, c) ensures StrLt(a, c) {
      StrLtTransitive(a, b, c);
    }
  }

  /** Equal-length prefixes decide the order first. */
  lemma {:induction false} StrLtConcat(a: string, b: string, x: string, y: string)
    requires |a| == |b|
    ensures StrLt(a + x, b + y) <==> StrLt(a, b) || (a == b && StrLt(x, y))
  {
    if a == [] {
      assert a + x == x && b + y == y;
    } else {
      assert (a + x)[1..] == a[1..] + x && (b + y)[1..] == b[1..] + y;
      assert a == [a[0]] + a[1..] && b == [b[0]] + b[1..];
      StrLtConcat(a[1..], b[1..], x, y);
    }
  }

  lemma TakeOneMore<T>(before: seq<T>, s: seq<T>, i: nat)
    requires i < |s|
    ensures before + s[..i] + [s[i]] == before + s[..i + 1]
  {
    assert s[..i + 1] == s[..i] + [s[i]];
  }

  lemma RemoveAt<T>(s: seq<T>, i: nat)
    requires i < |s|
    ensures multiset(s[..i] + s[i + 1..]) == multiset(s) - multiset{s[i]}
  {
    assert s == s[..i] + [s[i]] + s[i + 1..];
  }

  lemma {:induction false} SubsetSize<T>(a: set<T>, b: set<T>)
    requires a <= b
    ensures |a| <= |b|
  {
    if a != {} {
      var x :| x in a;
      SubsetSize(a - {x}, b - {x});
    }
  }

  /** Maps are no larger than maps with more keys. */
  lemma KeysFit<K, V>(a: map<K, V>, b: map<K, V>)
    requires a.Keys <= b.Keys
    ensures |a| <= |b|
  {
    SubsetSize(a.Keys, b.Keys);
  }

  ghost predicate NoDuplicates<T>(s: seq<T>) {
    forall i, j | 0 <= i < j < |s| :: s[i] != s[j]
  }

  /** A list without duplicates is no longer than a set that holds it. */
  lemma {:induction false} NoDuplicatesFit<T>(s: seq<T>, within: set<T>)
    requires NoDuplicates(s) && forall i | 0 <= i < |s| :: s[i] in within
    ensures |s| <= |within|
    decreases |s|
  {
    if s != [] {
      var n := |s| - 1;
      NoDuplicatesFit(s[..n], within - {s[n]});
    }
  }

  /** A list that holds a set is no shorter than it. */
  lemma {:induction false} CoversSize<T>(s: seq<T>, held: set<T>)
    requires forall x | x in held :: x in s
    ensures |held| <= |s|
    decreases |s|
  {
    if s == [] {
      assert held == {};
    } else {
      var n := |s| - 1;
      CoversSize(s[..n], held - {s[n]});
    }
  }

  lemma NothingIn<T>(s: seq<T>)
    requires forall x :: x !in s
    ensures s == []
  {
    assert forall x :: x in multiset(s) ==> x in s;
    assert multiset(s) == multiset{} && |multiset(s)| == |s|;
  }

  lemma {:induction false} DistinctCounts<T>(s: seq<T>)
    requires NoDuplicates(s)
    ensures forall x :: multiset(s)[x] <= 1
  {
    if s != [] {
      var n := |s| - 1;
      DistinctCounts(s[..n]);
      assert s == s[..n] + [s[n]] && s[n] !in s[..n];
    }
  }

  /** A permutation of a list without duplicates has none. */
  lemma PermutedDistinct<T>(s: seq<T>, t: seq<T>)
    requires NoDuplicates(s) && multiset(s) == multiset(t)
    ensures NoDuplicates(t)
  {
    DistinctCounts(s);
    forall i, j | 0 <= i < j < |t| ensures t[i] != t[j] {
      assert t == t[..j] + t[j..] && t[j..] == [t[j]] + t[j + 1..];
      assert t[..j][i] == t[i];
      assert t[i] == t[j] ==> multiset(t)[t[j]] >= 2;
    }
  }

  /** A sequence of strings in strictly ascending order: a `BTreeMap`'s keys. */
  ghost predicate Ascending(s: seq<string>) {
    forall i, j :: 0 <= i < j < |s| ==> StrLt(s[i], s[j])
  }

  lemma {:induction false} LeastExists(s: set<string>)
    requires s != {}
    ensures exists m :: m in s && forall k | k in s :: StrLe(m, k)
    decreases |s|
  {
    var x :| x in s;
    if s == {x} {
      assert x in s;
    } else {
      LeastExists(s - {x});
      var m :| m in s - {x} && forall k | k in s - {x} :: StrLe(m, k);
      var least := if StrLt(x, m) then x else m;
      StrLtTotal(x, m);
      forall k | k in s ensures StrLe(least, k) {
        if k != x {
          assert k in s - {x} && StrLe(m, k);
          if least == x && m != k { StrLtTransitive(x, m, k); }
        }
      }
    }
  }

  function Least(s: set<string>): (m: string)
    requires s != {}
    ensures m in s && forall k | k in s :: StrLe(m, k)
  {
    LeastExists(s);
    assert forall a, b :: StrLe(a, b) && StrLe(b, a) ==> a == b by {
      forall a, b | StrLe(a, b) && StrLe(b, a) ensures a == b { StrLtTotal(a, b); }
    }
    var m :| m in s && forall k | k in s :: StrLe(m, k);
    m
  }

  /** The keys of a `BTreeMap` in iteration order. */
  function SortedKeys(s: set<string>): (r: seq<string>)
    ensures Ascending(r)
    ensures forall k :: k in r <==> k in s
    decreases |s|
  {
    if s == {} then [] else
      var m := Least(s);
      var rest := SortedKeys(s - {m});
      assert forall i | 0 <= i < |rest| :: rest[i] in rest && StrLe(m, rest[i]) && m != rest[i];
      [m] + rest
  }

  lemma SortedDistinct(s: set<string>)
    ensures NoDuplicates(SortedKeys(s))
  {
    var keys := SortedKeys(s);
    forall i, j | 0 <= i < j < |keys| ensures keys[i] != keys[j] {
      StrLtIrreflexive(keys[i]);
    }
  }

  lemma SortedSize(s: set<string>)
    ensures |SortedKeys(s)| == |s|
  {
    var keys := SortedKeys(s);
    SortedDistinct(s);
    forall i | 0 <= i < |keys| ensures keys[i] in s { assert keys[i] in keys; }
    NoDuplicatesFit(keys, s);
    CoversSize(keys, s);
  }

  // ------------------------------------------------------------------- sorting

  ghost predicate SortedBy<T>(s: seq<T>, key: T -> string) {
    forall i, j | 0 <= i < j < |s| :: StrLe(key(s[i]), key(s[j]))
  }

  function InsertBy<T>(x: T, s: seq<T>, key: T -> string): seq<T> {
    if s == [] || StrLe(key(x), key(s[0])) then [x] + s else [s[0]] + InsertBy(x, s[1..], key)
  }

  /** Rust's `sort_by` on a string key. */
  function SortBy<T>(s: seq<T>, key: T -> string): seq<T> {
    if s == [] then [] else InsertBy(s[0], SortBy(s[1..], key), key)
  }

  lemma StrLeTransitive(a: string, b: string, c: string)
    requires StrLe(a, b) && StrLe(b, c)
    ensures StrLe(a, c)
  {
    if a != b && b != c { StrLtTransitive(a, b, c); }
  }

  lemma {:induction false} InsertByAdds<T>(x: T, s: seq<T>, key: T -> string)
    ensures multiset(InsertBy(x, s, key)) == multiset(s) + multiset{x}
  {
    if s != [] {
      assert s == [s[0]] + s[1..];
      if !StrLe(key(x), key(s[0])) { InsertByAdds(x, s[1..], key); }
    }
  }

  lemma {:induction false} InsertBySorts<T>(x: T, s: seq<T>, key: T -> string)
    requires SortedBy(s, key)
    ensures SortedBy(InsertBy(x, s, key), key)
  {
    if s != [] {
      StrLtTotal(key(x), key(s[0]));
      if StrLe(key(x), key(s[0])) {
        forall j | 0 <= j < |s| ensures StrLe(key(x), key(s[j])) { StrLeTransitive(key(x), key(s[0]), key(s[j])); }
      } else {
        InsertBySorts(x, s[1..], key);
        InsertByAdds(x, s[1..], key);
        var rest := InsertBy(x, s[1..], key);
        forall j | 0 <= j < |rest| ensures StrLe(key(s[0]), key(rest[j])) {
          assert rest[j] in multiset(rest);
        }
      }
    }
  }

  lemma {:induction false} SortByPermutes<T>(s: seq<T>, key: T -> string)
    ensures SortedBy(SortBy(s, key), key) && multiset(SortBy(s, key)) == multiset(s)
  {
    if s != [] {
      SortByPermutes(s[1..], key);
      InsertBySorts(s[0], SortBy(s[1..], key), key);
      InsertByAdds(s[0], SortBy(s[1..], key), key);
      assert s == [s[0]] + s[1..];
    }
  }

  /** Sorting orders by key and keeps exactly the elements. */
  lemma SortBySorts<T>(s: seq<T>, key: T -> string)
    ensures SortedBy(SortBy(s, key), key)
    ensures |SortBy(s, key)| == |s| && forall x :: x in SortBy(s, key) <==> x in s
  {
    SortByPermutes(s, key);
    assert |multiset(SortBy(s, key))| == |SortBy(s, key)| && |multiset(s)| == |s|;
    forall x ensures x in SortBy(s, key) <==> x in s {
      assert x in SortBy(s, key) <==> x in multiset(SortBy(s, key));
      assert x in s <==> x in multiset(s);
    }
  }
}
