/** Ordered string keys.

    The original keeps keys in ordered maps and sets, which iterate in the
    lexicographic order of the strings.  This module defines that order, proves
    it a strict total order and gives the least element and the ascending
    enumeration of a finite set.  It also measures and classifies text the way
    the validation rules do. */
module Keys {

  type Key = string

  datatype Option<+T> = None | Some(value: T)

  datatype Result<+T, +E> = Ok(value: T) | Err(error: E)

  function AtMost(a: nat, b: nat): nat
  {
    if a < b then a else b
  }

  /** Strict lexicographic order by code point. */
  predicate Less(a: Key, b: Key)
  {
    LessFrom(a, b, 0)
  }

  /** The order of the remainders from position `i`. */
  predicate LessFrom(a: Key, b: Key, i: nat)
    requires i <= |a| && i <= |b|
    decreases |a| - i
  {
    i < |b| && (i == |a| || a[i] < b[i] || (a[i] == b[i] && LessFrom(a, b, i + 1)))
  }

  lemma {:induction false} LessFromTransitive(a: Key, b: Key, c: Key, i: nat)
    requires i <= |a| && i <= |b| && i <= |c|
    requires LessFrom(a, b, i) && LessFrom(b, c, i)
    ensures LessFrom(a, c, i)
    decreases |a| - i
  {
    if i < |a| && a[i] == b[i] && b[i] == c[i] {
      LessFromTransitive(a, b, c, i + 1);
    }
  }

  lemma {:induction false} LessFromTotal(a: Key, b: Key, i: nat)
    requires i <= |a| && i <= |b|
    ensures a[i..] == b[i..] || LessFrom(a, b, i) || LessFrom(b, a, i)
    decreases |a| - i
  {
    if i < |a| && i < |b| && a[i] == b[i] {
      LessFromTotal(a, b, i + 1);
      assert a[i..] == [a[i]] + a[i + 1..];
      assert b[i..] == [b[i]] + b[i + 1..];
    }
  }

  lemma {:induction false} LessFromAsymmetric(a: Key, b: Key, i: nat)
    requires i <= |a| && i <= |b| && LessFrom(a, b, i)
    ensures !LessFrom(b, a, i) && a != b
    decreases |a| - i
  {
    if i < |a| && a[i] == b[i] {
      LessFromAsymmetric(a, b, i + 1);
    }
  }

  lemma LessTransitive(a: Key, b: Key, c: Key)
    requires Less(a, b) && Less(b, c)
    ensures Less(a, c)
  {
    LessFromTransitive(a, b, c, 0);
  }

  lemma LessTotal(a: Key, b: Key)
    ensures a == b || Less(a, b) || Less(b, a)
  {
    LessFromTotal(a, b, 0);
    assert a[0..] == a && b[0..] == b;
  }

  lemma LessAsymmetric(a: Key, b: Key)
    requires Less(a, b)
    ensures !Less(b, a) && a != b
  {
    LessFromAsymmetric(a, b, 0);
  }

  /** `k` is the least element of `s`. */
  ghost predicate IsLeast(s: set<Key>, k: Key)
  {
    k in s && forall x :: x in s && x != k ==> Less(k, x)
  }

  lemma {:induction false} LeastExists(s: set<Key>)
    requires s != {}
    ensures exists k :: IsLeast(s, k)
    decreases |s|
  {
    var x :| x in s;
    if s == {x} {
      assert IsLeast(s, x);
    } else {
      var rest := s - {x};
      assert rest != {};
      LeastExists(rest);
      var k :| IsLeast(rest, k);
      LessTotal(x, k);
      if Less(x, k) {
        forall y | y in s && y != x
          ensures Less(x, y)
        {
          if y != k { LessTransitive(x, k, y); }
        }
        assert IsLeast(s, x);
      } else {
        assert IsLeast(s, k);
      }
    }
  }

  lemma LeastUnique(s: set<Key>, j: Key, k: Key)
    requires IsLeast(s, j) && IsLeast(s, k)
    ensures j == k
  {
    if j != k { LessAsymmetric(j, k); }
  }

  /** The element an ordered set yields first. */
  function Least(s: set<Key>): (k: Key)
    requires s != {}
    ensures IsLeast(s, k)
  {
    LeastExists(s);
    var k :| k in s && forall x <- s :: x != k ==> Less(k, x);
    assert forall j | j in s && (forall x <- s :: x != j ==> Less(j, x)) :: j == k by {
      forall j | j in s && (forall x <- s :: x != j ==> Less(j, x))
        ensures j == k
      {
        LeastUnique(s, j, k);
      }
    }
    k
  }

  /** Strictly ascending sequences. */
  ghost predicate Ascending(xs: seq<Key>)
  {
    forall i, j :: 0 <= i < j < |xs| ==> Less(xs[i], xs[j])
  }

  ghost function Elements<T>(xs: seq<T>): set<T>
  {
    set x | x in xs
  }

  ghost predicate NoDuplicates<T>(xs: seq<T>)
  {
    forall i, j :: 0 <= i < j < |xs| ==> xs[i] != xs[j]
  }

  lemma {:induction false} DistinctLength<T>(xs: seq<T>)
    requires NoDuplicates(xs)
    ensures |Elements(xs)| == |xs|
  {
    if |xs| > 0 {
      var n := |xs| - 1;
      DistinctLength(xs[..n]);
      assert Elements(xs) == Elements(xs[..n]) + {xs[n]};
      assert xs[n] !in Elements(xs[..n]);
    }
  }

  lemma ElementsCons<T>(x: T, xs: seq<T>)
    ensures Elements([x] + xs) == {x} + Elements(xs)
  {
  }

  lemma ElementsAppend<T>(xs: seq<T>, ys: seq<T>)
    ensures Elements(xs + ys) == Elements(xs) + Elements(ys)
  {
  }

  /** The elements of a set in iteration order. */
  function Enumerate(s: set<Key>): (xs: seq<Key>)
    ensures Elements(xs) == s
    decreases |s|
  {
    if s == {} then [] else
      var k := Least(s);
      var rest := Enumerate(s - {k});
      ElementsCons(k, rest);
      [k] + rest
  }

  lemma {:induction false} EnumerateAscends(s: set<Key>)
    ensures Ascending(Enumerate(s))
    decreases |s|
  {
    if s != {} {
      var k := Least(s);
      var rest := Enumerate(s - {k});
      EnumerateAscends(s - {k});
      forall j | 0 <= j < |rest|
        ensures Less(k, rest[j])
      {
        assert rest[j] in Elements(rest);
      }
      assert Enumerate(s) == [k] + rest;
    }
  }

  /** An ascending enumeration of a set is unique. */
  lemma {:induction false} AscendingUnique(xs: seq<Key>, ys: seq<Key>)
    requires Ascending(xs) && Ascending(ys) && Elements(xs) == Elements(ys)
    ensures xs == ys
    decreases |xs|
  {
    ElementsEmpty(xs);
    ElementsEmpty(ys);
    if |xs| > 0 {
      HeadIsLeast(xs);
      HeadIsLeast(ys);
      LeastUnique(Elements(xs), xs[0], ys[0]);
      TailElements(xs);
      TailElements(ys);
      AscendingUnique(xs[1..], ys[1..]);
      assert xs == [xs[0]] + xs[1..] && ys == [ys[0]] + ys[1..];
    }
  }

  lemma ElementsEmpty<T>(xs: seq<T>)
    ensures Elements(xs) == {} <==> xs == []
  {
    if |xs| > 0 { assert xs[0] in Elements(xs); }
  }

  lemma HeadIsLeast(xs: seq<Key>)
    requires Ascending(xs) && |xs| > 0
    ensures IsLeast(Elements(xs), xs[0])
  {
  }

  lemma TailElements(xs: seq<Key>)
    requires Ascending(xs) && |xs| > 0
    ensures Elements(xs[1..]) == Elements(xs) - {xs[0]}
  {
    forall x | x in Elements(xs[1..])
      ensures x in xs && x != xs[0]
    {
      var i :| 0 <= i < |xs[1..]| && xs[1..][i] == x;
      assert xs[i + 1] == x;
      LessAsymmetric(xs[0], xs[i + 1]);
    }
    forall x | x in Elements(xs) - {xs[0]}
      ensures x in xs[1..]
    {
      var i :| 0 <= i < |xs| && xs[i] == x;
      assert xs[1..][i - 1] == x;
    }
  }

  /** Bytes of the UTF-8 form of a string, which is what its length counts. */
  function Utf8Length(s: string): nat
  {
    if s == "" then 0 else Utf8Width(s[0]) + Utf8Length(s[1..])
  }

  function Utf8Width(c: char): nat
  {
    var code := c as int;
    if code < 0x80 then 1 else if code < 0x800 then 2 else if code < 0x10000 then 3 else 4
  }

  predicate Control(c: char)
  {
    var code := c as int;
    code < 0x20 || 0x7f <= code < 0xa0
  }

  predicate WhiteSpace(c: char)
  {
    var code := c as int;
    || 0x09 <= code <= 0x0d || code == 0x20 || code == 0x85 || code == 0xa0 || code == 0x1680
    || 0x2000 <= code <= 0x200a || code == 0x2028 || code == 0x2029 || code == 0x202f || code == 0x205f
       || code == 0x3000
  }
}
