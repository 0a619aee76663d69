/**
 Go strings and the library orderings on them. A Go string is the sequence of its bytes; each
 byte is a `char` below 256. `Less` is Go's `<` on strings, and `SortBy` stands for
 `sort.Strings` and `sort.Slice`, which leave the order of equal keys open.
 */
module Text {

  /** Go's `a < b`: byte-wise lexicographic order. */
  predicate Less(a: string, b: string) {
    if b == [] then false
    else if a == [] then true
    else a[0] < b[0] || (a[0] == b[0] && Less(a[1..], b[1..]))
  }

  lemma {:induction false} LessIsStrict(a: string, b: string)
    ensures !(Less(a, b) && Less(b, a))
    ensures !Less(a, a)
  {
    if a != [] {
      LessIsStrict(a[1..], if b == [] then [] else b[1..]);
    }
  }

  lemma {:induction false} LessIsTransitive(a: string, b: string, c: string)
    requires Less(a, b) && Less(b, c)
    ensures Less(a, c)
  {
    if a != [] && a[0] == b[0] == c[0] {
      LessIsTransitive(a[1..], b[1..], c[1..]);
    }
  }

  lemma {:induction false} LessIsTotal(a: string, b: string)
    ensures Less(a, b) || a == b || Less(b, a)
  {
    if a != [] && b != [] && a[0] == b[0] {
      LessIsTotal(a[1..], b[1..]);
    }
  }

  /** Keys strictly increase: what the wire format demands and what sorting distinct keys gives. */
  ghost predicate Ascending(keys: seq<string>) {
    forall i, j :: 0 <= i < j < |keys| ==> Less(keys[i], keys[j])
  }

  function Keys<T>(xs: seq<T>, key: T -> string): (r: seq<string>)
    ensures |r| == |xs|
    ensures forall i :: 0 <= i < |xs| ==> r[i] == key(xs[i])
  {
    seq(|xs|, i requires 0 <= i < |xs| => key(xs[i]))
  }

  /** Keys never step down; equal neighbours are allowed. */
  ghost predicate Sorted<T(!new)>(xs: seq<T>, key: T -> string) {
    forall i, j :: 0 <= i < j < |xs| ==> !Less(key(xs[j]), key(xs[i]))
  }

  predicate DistinctKeys<T(!new)>(xs: seq<T>, key: T -> string) {
    forall i, j :: 0 <= i < j < |xs| ==> key(xs[i]) != key(xs[j])
  }

  function Insert<T>(x: T, xs: seq<T>, key: T -> string): (r: seq<T>)
    ensures multiset(r) == multiset(xs) + multiset{x}
    ensures |r| == |xs| + 1
  {
    if xs == [] then [x]
    else if Less(key(xs[0]), key(x)) then
      assert xs == [xs[0]] + xs[1..];
      [xs[0]] + Insert(x, xs[1..], key)
    else [x] + xs
  }

  function SortBy<T>(xs: seq<T>, key: T -> string): (r: seq<T>)
    ensures multiset(r) == multiset(xs)
    ensures |r| == |xs|
  {
    if xs == [] then []
    else
      assert xs == [xs[0]] + xs[1..];
      Insert(xs[0], SortBy(xs[1..], key), key)
  }

  lemma {:induction false} InsertKeepsSorted<T(!new)>(x: T, xs: seq<T>, key: T -> string)
    requires Sorted(xs, key)
    ensures Sorted(Insert(x, xs, key), key)
  {
    var r := Insert(x, xs, key);
    if xs == [] {
    } else if Less(key(xs[0]), key(x)) {
      InsertKeepsSorted(x, xs[1..], key);
      var tail := Insert(x, xs[1..], key);
      forall j | 0 < j < |r| ensures !Less(key(r[j]), key(r[0])) {
        assert r[j] == tail[j - 1];
        assert tail[j - 1] in multiset(tail);
        LessIsStrict(key(x), key(xs[0]));
      }
    } else {
      forall j | 0 < j < |r| ensures !Less(key(r[j]), key(x)) {
        if Less(key(r[j]), key(x)) {
          LessIsTotal(key(xs[0]), key(x));
          if Less(key(x), key(xs[0])) { LessIsTransitive(key(r[j]), key(x), key(xs[0])); }
        }
      }
    }
  }

  lemma {:induction false} SortBySorts<T(!new)>(xs: seq<T>, key: T -> string)
    ensures Sorted(SortBy(xs, key), key)
  {
    if xs != [] {
      SortBySorts(xs[1..], key);
      InsertKeepsSorted(xs[0], SortBy(xs[1..], key), key);
    }
  }

  /** Two strictly ascending sequences with the same elements are the same sequence. */
  lemma {:induction false} AscendingIsUnique<T(!new)>(xs: seq<T>, ys: seq<T>, key: T -> string)
    requires Ascending(Keys(xs, key)) && Ascending(Keys(ys, key))
    requires forall x :: x in xs <==> x in ys
    ensures xs == ys
  {
    assert |ys| > 0 ==> ys[0] in xs;
    if xs != [] {
      assert xs[0] in ys;
      SameFirst(xs, ys, key);
      AscendingTail(xs, key);
      AscendingTail(ys, key);
      forall x ensures x in xs[1..] <==> x in ys[1..] {
        assert x in xs <==> x == xs[0] || x in xs[1..];
        assert x in ys <==> x == ys[0] || x in ys[1..];
      }
      AscendingIsUnique(xs[1..], ys[1..], key);
    }
  }

  lemma SameFirst<T(!new)>(xs: seq<T>, ys: seq<T>, key: T -> string)
    requires xs != [] && ys != [] && Ascending(Keys(xs, key)) && Ascending(Keys(ys, key))
    requires xs[0] in ys && ys[0] in xs
    ensures xs[0] == ys[0]
  {
    if xs[0] != ys[0] {
      var i :| 0 <= i < |ys| && ys[i] == xs[0];
      var j :| 0 <= j < |xs| && xs[j] == ys[0];
      assert Less(Keys(ys, key)[0], Keys(ys, key)[i]);
      assert Less(Keys(xs, key)[0], Keys(xs, key)[j]);
      LessIsStrict(key(xs[0]), key(ys[0]));
    }
  }

  lemma AscendingTail<T>(xs: seq<T>, key: T -> string)
    requires xs != [] && Ascending(Keys(xs, key))
    ensures Ascending(Keys(xs[1..], key))
    ensures xs[0] !in xs[1..]
  {
    assert Keys(xs[1..], key) == Keys(xs, key)[1..];
    if xs[0] in xs[1..] {
      var i :| 0 < i < |xs| && xs[i] == xs[0];
      assert Less(Keys(xs, key)[0], Keys(xs, key)[i]);
      LessIsStrict(key(xs[0]), key(xs[0]));
    }
  }

  lemma TwicePresent<T>(ys: seq<T>, i: nat, j: nat)
    requires i < j < |ys| && ys[i] == ys[j]
    ensures multiset(ys)[ys[i]] >= 2
  {
    assert ys == ys[..j] + ys[j..];
    assert ys[i] in ys[..j] && ys[j] in ys[j..];
  }

  lemma OncePresent<T(!new)>(xs: seq<T>, k: nat, key: T -> string)
    requires k < |xs| && DistinctKeys(xs, key)
    ensures multiset(xs)[xs[k]] == 1
  {
    assert xs == xs[..k] + ([xs[k]] + xs[k + 1..]);
    assert xs[k] !in xs[..k] && xs[k] !in xs[k + 1..];
  }

  /** Distinctness of keys depends only on which elements are present, not on their order. */
  lemma DistinctKeysOfPermutation<T(!new)>(xs: seq<T>, ys: seq<T>, key: T -> string)
    requires DistinctKeys(xs, key) && multiset(xs) == multiset(ys)
    ensures DistinctKeys(ys, key)
  {
    forall i, j | 0 <= i < j < |ys| && key(ys[i]) == key(ys[j]) ensures false {
      assert ys[i] in multiset(xs) && ys[j] in multiset(xs);
      var k :| 0 <= k < |xs| && xs[k] == ys[i];
      var l :| 0 <= l < |xs| && xs[l] == ys[j];
      assert k == l;
      TwicePresent(ys, i, j);
      OncePresent(xs, k, key);
    }
  }

  /** Sorting the same elements from any starting order gives one result when keys are distinct. */
  lemma SortByIgnoresOrder<T(!new)>(xs: seq<T>, ys: seq<T>, key: T -> string)
    requires DistinctKeys(xs, key) && multiset(xs) == multiset(ys)
    ensures SortBy(xs, key) == SortBy(ys, key)
    ensures Ascending(Keys(SortBy(xs, key), key))
  {
    var a, b := SortBy(xs, key), SortBy(ys, key);
    SortBySorts(xs, key);
    SortBySorts(ys, key);
    DistinctKeysOfPermutation(xs, a, key);
    DistinctKeysOfPermutation(xs, b, key);
    SortedDistinctAscends(a, key);
    SortedDistinctAscends(b, key);
    forall x ensures x in a <==> x in b {
      assert x in a <==> x in multiset(a);
      assert x in b <==> x in multiset(b);
    }
    AscendingIsUnique(a, b, key);
  }

  lemma SortedDistinctAscends<T(!new)>(xs: seq<T>, key: T -> string)
    requires Sorted(xs, key) && DistinctKeys(xs, key)
    ensures Ascending(Keys(xs, key))
  {
    forall i, j | 0 <= i < j < |xs| ensures Less(key(xs[i]), key(xs[j])) {
      LessIsTotal(key(xs[i]), key(xs[j]));
    }
  }

  lemma AscendingKeysAreDistinct<T(!new)>(xs: seq<T>, key: T -> string)
    requires Ascending(Keys(xs, key))
    ensures DistinctKeys(xs, key)
  {
    forall i, j | 0 <= i < j < |xs| ensures key(xs[i]) != key(xs[j]) {
      assert Less(Keys(xs, key)[i], Keys(xs, key)[j]);
      LessIsStrict(key(xs[i]), key(xs[j]));
    }
  }

  /** `fmt.Sprintf("%d", n)` and `strconv.FormatUint(n, 10)`. */
  function Decimal(n: nat): (r: string)
    ensures |r| > 0
  {
    if n < 10 then [('0' as int + n) as char]
    else Decimal(n / 10) + [('0' as int + n % 10) as char]
  }

  predicate Digit(c: char) { '0' <= c <= '9' }

  lemma {:induction false} DecimalIsDigits(n: nat)
    ensures forall i :: 0 <= i < |Decimal(n)| ==> Digit(Decimal(n)[i])
  {
    if n >= 10 { DecimalIsDigits(n / 10); }
  }

  lemma {:induction false} DecimalIsInjective(a: nat, b: nat)
    requires Decimal(a) == Decimal(b)
    ensures a == b
  {
    var m, n := |Decimal(a)| - 1, |Decimal(b)| - 1;
    assert Decimal(a)[m] == Decimal(b)[n];
    if a >= 10 && b >= 10 {
      assert Decimal(a)[..m] == Decimal(b)[..n];
      DecimalIsInjective(a / 10, b / 10);
    }
  }

  /** A mark that the rest does not hold separates a text in one way only. */
  lemma CutAtMark(u: string, x: string, v: string, y: string, mark: char)
    requires u + [mark] + x == v + [mark] + y && mark !in x && mark !in y
    ensures u == v && x == y
  {
    var t := u + [mark] + x;
    assert t[|u|] == mark && t[|v|] == mark;
    assert forall i :: |u| < i < |t| ==> t[i] == x[i - |u| - 1];
    assert forall i :: |v| < i < |t| ==> t[i] == y[i - |v| - 1];
    assert |u| == |v|;
    assert t[..|u|] == u && t[..|u|] == v && t[|u| + 1..] == x && t[|u| + 1..] == y;
  }
}
