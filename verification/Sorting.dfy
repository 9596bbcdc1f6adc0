/** sort.Strings, and sort.Slice by a string key: the order in which frames are rebuilt. */
module Sorting {
  /** Go's `<` on strings. */
  predicate StringLess(a: string, b: string) {
    if b == "" then false
    else if a == "" then true
    else a[0] < b[0] || (a[0] == b[0] && StringLess(a[1..], b[1..]))
  }

  lemma {:induction false} StringLessOrder(a: string, b: string, c: string)
    ensures !(StringLess(a, b) && StringLess(b, a))
    ensures !StringLess(a, b) && !StringLess(b, a) ==> a == b
    ensures StringLess(a, b) && StringLess(b, c) ==> StringLess(a, c)
    decreases |a| + |b| + |c|
  {
    if a != "" && b != "" {
      StringLessOrder(a[1..], b[1..], if c == "" then c else c[1..]);
      if a[0] == b[0] && a[1..] == b[1..] {
        assert a == [a[0]] + a[1..] == b;
      }
    }
  }

  /** a and b agree up to i, where a ends or has the smaller character. */
  predicate LessAt(a: string, b: string, i: nat) {
    i <= |a| && i < |b| && a[..i] == b[..i] && (i == |a| || a[i] < b[i])
  }

  lemma FirstAgrees(a: string, b: string, i: nat)
    requires LessAt(a, b, i)
    ensures i > 0 ==> a != "" && a[0] == b[0]
  {
    assert i > 0 ==> a[..i][0] == b[..i][0];
  }

  /** The order of a dictionary: decided at the first difference, a proper prefix first. */
  lemma {:induction false} StringLessIff(a: string, b: string)
    ensures StringLess(a, b) <==> exists i: nat :: LessAt(a, b, i)
  {
    if b != "" && (a == "" || a[0] != b[0]) {
      if a == "" || a[0] < b[0] {
        assert LessAt(a, b, 0);
      }
      if i: nat :| LessAt(a, b, i) {
        FirstAgrees(a, b, i);
      }
    } else if b != "" {
      StringLessIff(a[1..], b[1..]);
      if i: nat :| LessAt(a[1..], b[1..], i) {
        assert a[..i + 1] == [a[0]] + a[1..][..i] && b[..i + 1] == [b[0]] + b[1..][..i];
        assert LessAt(a, b, i + 1);
      }
      if i: nat :| LessAt(a, b, i) {
        assert i > 0 && a[1..][..i - 1] == a[..i][1..] && b[1..][..i - 1] == b[..i][1..];
        assert LessAt(a[1..], b[1..], i - 1);
      }
    }
  }

  ghost predicate Increasing(xs: seq<string>) {
    forall i, j :: 0 <= i < j < |xs| ==> StringLess(xs[i], xs[j])
  }

  /** `xs` is the strings of `s` in increasing order. */
  ghost predicate IsSorted(s: set<string>, xs: seq<string>) {
    Increasing(xs) && forall x :: x in xs <==> x in s
  }

  /** There is only one such sequence: what is sorted does not depend on the order it was collected in. */
  lemma {:induction false} SortedIsUnique(s: set<string>, xs: seq<string>, ys: seq<string>)
    requires IsSorted(s, xs) && IsSorted(s, ys)
    ensures xs == ys
  {
    assert |ys| > 0 ==> ys[0] in xs;
    if xs != [] {
      assert xs[0] in s && xs[0] in ys;
      assert ys[0] in s && ys[0] in xs;
      StringLessOrder(xs[0], ys[0], xs[0]);
      assert xs[0] == ys[0];
      TailIsSorted(s, xs);
      TailIsSorted(s, ys);
      SortedIsUnique(s - {xs[0]}, xs[1..], ys[1..]);
    }
  }

  lemma TailIsSorted(s: set<string>, xs: seq<string>)
    requires IsSorted(s, xs) && xs != []
    ensures IsSorted(s - {xs[0]}, xs[1..])
  {
    StringLessOrder(xs[0], xs[0], xs[0]);
    forall x ensures x in xs[1..] <==> x in s - {xs[0]} {
      assert x in xs <==> x == xs[0] || x in xs[1..];
      if x in xs[1..] {
        var i :| 0 <= i < |xs[1..]| && xs[1..][i] == x;
        assert StringLess(xs[0], xs[i + 1]);
      }
    }
  }

  function Insert(k: string, xs: seq<string>): seq<string> {
    if xs == [] then [k]
    else if StringLess(k, xs[0]) then [k] + xs
    else [xs[0]] + Insert(k, xs[1..])
  }

  lemma {:induction false} InsertSorts(s: set<string>, k: string, xs: seq<string>)
    requires IsSorted(s, xs) && k !in s
    ensures IsSorted(s + {k}, Insert(k, xs))
  {
    if xs != [] {
      assert xs[0] in s;
      if StringLess(k, xs[0]) {
        forall j | 0 <= j < |xs| ensures StringLess(k, xs[j]) {
          StringLessOrder(k, xs[0], xs[j]);
        }
      } else {
        StringLessOrder(k, xs[0], k);
        TailIsSorted(s, xs);
        InsertSorts(s - {xs[0]}, k, xs[1..]);
        var rest := Insert(k, xs[1..]);
        forall j | 0 <= j < |rest| ensures StringLess(xs[0], rest[j]) {
          assert rest[j] in s - {xs[0]} + {k};
          if rest[j] != k {
            var i :| 0 <= i < |xs| && xs[i] == rest[j];
          }
        }
      }
    }
  }

  method SortStrings(s: set<string>) returns (xs: seq<string>)
    ensures IsSorted(s, xs)
  {
    xs := [];
    var todo := s;
    while todo != {}
      invariant todo <= s && IsSorted(s - todo, xs)
      decreases todo
    {
      var k :| k in todo;
      InsertSorts(s - todo, k, xs);
      assert s - todo + {k} == s - (todo - {k});
      xs := Insert(k, xs);
      todo := todo - {k};
    }
    assert s - todo == s;
  }
}
