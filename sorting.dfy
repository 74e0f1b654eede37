/** Deterministic iteration over the keys of a dictionary: the panel walks
    `sorted(symbols)` and `sorted(symbol.orders)`, so every traversal in the
    model goes through `SortedSeq`, the ascending enumeration of a finite set
    under a total order. Python orders `int` keys numerically and `str` keys
    by code point, lexicographically; `IntLe` and `StrLe` are those orders. */
module Sorting {

  ghost predicate TotalOrder<T(!new)>(le: (T, T) -> bool) {
    && (forall x :: le(x, x))
    && (forall x, y :: le(x, y) && le(y, x) ==> x == y)
    && (forall x, y, z :: le(x, y) && le(y, z) ==> le(x, z))
    && (forall x, y :: le(x, y) || le(y, x))
  }

  /** Strictly ascending: ordered and without repetitions. */
  ghost predicate Ascending<T>(r: seq<T>, le: (T, T) -> bool) {
    forall i, j :: 0 <= i < j < |r| ==> le(r[i], r[j]) && r[i] != r[j]
  }

  /** Two ascending runs, each element of the first below each of the second,
      make one ascending run. */
  lemma AscendingConcat<T>(a: seq<T>, b: seq<T>, le: (T, T) -> bool)
    requires Ascending(a, le) && Ascending(b, le)
    requires forall i, j :: 0 <= i < |a| && 0 <= j < |b| ==> le(a[i], b[j]) && a[i] != b[j]
    ensures Ascending(a + b, le)
  {
    var c := a + b;
    forall i, j | 0 <= i < j < |c| ensures le(c[i], c[j]) && c[i] != c[j] {
      if j < |a| {
        assert c[i] == a[i] && c[j] == a[j];
      } else if i < |a| {
        assert c[i] == a[i] && c[j] == b[j - |a|];
      } else {
        assert c[i] == b[i - |a|] && c[j] == b[j - |a|];
      }
    }
  }

  predicate IntLe(a: int, b: int) {
    a <= b
  }

  /** Python's comparison of two `str` values. */
  predicate StrLe(a: string, b: string) {
    if a == [] then true
    else if b == [] then false
    else if a[0] != b[0] then a[0] < b[0]
    else StrLe(a[1..], b[1..])
  }

  lemma IntLeTotal()
    ensures TotalOrder(IntLe)
  {
  }

  lemma {:induction false} StrLeReflexive(a: string)
    ensures StrLe(a, a)
  {
    if a != [] {
      StrLeReflexive(a[1..]);
    }
  }

  lemma {:induction false} StrLeAntisymmetric(a: string, b: string)
    requires StrLe(a, b) && StrLe(b, a)
    ensures a == b
  {
    if a != [] && b != [] {
      StrLeAntisymmetric(a[1..], b[1..]);
      assert a == [a[0]] + a[1..] && b == [b[0]] + b[1..];
    }
  }

  lemma {:induction false} StrLeTransitive(a: string, b: string, c: string)
    requires StrLe(a, b) && StrLe(b, c)
    ensures StrLe(a, c)
  {
    if a != [] && b != [] && c != [] && a[0] == b[0] == c[0] {
      StrLeTransitive(a[1..], b[1..], c[1..]);
    }
  }

  lemma {:induction false} StrLeConnected(a: string, b: string)
    ensures StrLe(a, b) || StrLe(b, a)
  {
    if a != [] && b != [] && a[0] == b[0] {
      StrLeConnected(a[1..], b[1..]);
    }
  }

  lemma StrLeTotal()
    ensures TotalOrder(StrLe)
  {
    forall a {:trigger StrLe(a, a)} ensures StrLe(a, a) {
      StrLeReflexive(a);
    }
    forall a, b | StrLe(a, b) && StrLe(b, a) ensures a == b {
      StrLeAntisymmetric(a, b);
    }
    forall a, b, c | StrLe(a, b) && StrLe(b, c) ensures StrLe(a, c) {
      StrLeTransitive(a, b, c);
    }
    forall a, b ensures StrLe(a, b) || StrLe(b, a) {
      StrLeConnected(a, b);
    }
  }

  lemma {:induction false} LeastExists<T(!new)>(s: set<T>, le: (T, T) -> bool)
    requires s != {} && TotalOrder(le)
    ensures exists m :: m in s && forall x :: x in s ==> le(m, x)
  {
    var y :| y in s;
    if s == {y} {
      assert forall x :: x in s ==> x == y;
      assert le(y, y);
    } else {
      LeastExists(s - {y}, le);
      var m :| m in s - {y} && forall x :: x in s - {y} ==> le(m, x);
      if le(m, y) {
        forall x | x in s ensures le(m, x) {
          if x != y {
            assert x in s - {y};
          }
        }
      } else {
        assert le(y, m);
        forall x | x in s ensures le(y, x) {
          if x != y {
            assert x in s - {y};
            assert le(m, x);
          }
        }
      }
    }
  }

  /** The smallest element of a non-empty set. */
  function Least<T(!new)>(s: set<T>, le: (T, T) -> bool): (m: T)
    requires s != {} && TotalOrder(le)
    ensures m in s && forall x :: x in s ==> le(m, x)
  {
    LeastExists(s, le);
    var m :| m in s && forall x :: x in s ==> le(m, x); m
  }

  /** The elements of `s` in ascending order, as `sorted(s)` yields them. */
  function SortedSeq<T(!new)>(s: set<T>, le: (T, T) -> bool): (r: seq<T>)
    requires TotalOrder(le)
    ensures |r| == |s|
    ensures forall x :: x in r <==> x in s
    ensures Ascending(r, le)
    decreases |s|
  {
    if s == {} then []
    else
      var m := Least(s, le);
      [m] + SortedSeq(s - {m}, le)
  }

  /** Sorting does not depend on how the set was built: any ascending
      enumeration of `s` is `SortedSeq(s, le)`. */
  lemma {:induction false} SortedSeqUnique<T(!new)>(s: set<T>, le: (T, T) -> bool, r: seq<T>)
    requires TotalOrder(le)
    requires Ascending(r, le)
    requires forall x :: x in r <==> x in s
    ensures r == SortedSeq(s, le)
    decreases |s|
  {
    if r == [] {
      assert s == {};
    } else {
      assert r[0] in s;
      var m := Least(s, le);
      assert r[0] == m by {
        assert le(r[0], r[0]);
        assert forall j :: 0 <= j < |r| ==> le(r[0], r[j]);
        assert m in r;
        assert le(r[0], m) && le(m, r[0]);
      }
      var rest := r[1..];
      forall x ensures x in rest <==> x in s - {m} {
        if x in rest {
          var i :| 0 <= i < |rest| && rest[i] == x;
          assert r[i + 1] == x && r[0] != r[i + 1];
        }
        if x in s - {m} {
          assert x in r;
          var i :| 0 <= i < |r| && r[i] == x;
          assert i != 0;
          assert rest[i - 1] == x;
        }
      }
      assert Ascending(rest, le) by {
        forall i, j | 0 <= i < j < |rest| ensures le(rest[i], rest[j]) && rest[i] != rest[j] {
          assert rest[i] == r[i + 1] && rest[j] == r[j + 1];
        }
      }
      SortedSeqUnique(s - {m}, le, rest);
      assert r == [m] + rest;
    }
  }
}
