/** sorted(): insertion into an ordered list, for any strict order. */
module Sorting {
  import opened Text

  ghost predicate Strict<T(!new)>(less: (T, T) -> bool) {
    forall a, b :: less(a, b) ==> !less(b, a)
  }

  /** A strict order in which any two different values compare. */
  ghost predicate Total<T(!new)>(less: (T, T) -> bool) {
    && Strict(less)
    && (forall a, b :: less(a, b) || less(b, a) || a == b)
    && (forall a, b, c :: less(a, b) && less(b, c) ==> less(a, c))
  }

  function Insert<T>(less: (T, T) -> bool, x: T, s: seq<T>): (r: seq<T>)
    ensures |r| == |s| + 1
  {
    if s == [] || less(x, s[0]) then [x] + s else [s[0]] + Insert(less, x, s[1..])
  }

  function Sorted<T>(less: (T, T) -> bool, s: seq<T>): (r: seq<T>)
    ensures |r| == |s|
  {
    if s == [] then [] else Insert(less, s[0], Sorted(less, s[1..]))
  }

  predicate InOrder<T>(less: (T, T) -> bool, s: seq<T>) {
    forall i :: 0 < i < |s| ==> !less(s[i], s[i - 1])
  }

  lemma {:induction false} InsertInOrder<T(!new)>(less: (T, T) -> bool, x: T, s: seq<T>)
    requires Strict(less) && InOrder(less, s)
    ensures InOrder(less, Insert(less, x, s)) && multiset(Insert(less, x, s)) == multiset(s) + multiset{x}
  {
    if s != [] && !less(x, s[0]) {
      assert s == [s[0]] + s[1..];
      InsertInOrder(less, x, s[1..]);
      var rest := Insert(less, x, s[1..]);
      assert rest[0] == x || rest[0] == s[1];
    }
  }

  /** The result is ordered and holds the same values, each as often. */
  lemma {:induction false} SortedIsOrdered<T(!new)>(less: (T, T) -> bool, s: seq<T>)
    requires Strict(less)
    ensures InOrder(less, Sorted(less, s)) && multiset(Sorted(less, s)) == multiset(s)
  {
    if s != [] {
      SortedIsOrdered(less, s[1..]);
      InsertInOrder(less, s[0], Sorted(less, s[1..]));
      assert s == [s[0]] + s[1..];
    }
  }

  lemma {:induction false} HeadIsLeast<T(!new)>(less: (T, T) -> bool, s: seq<T>, i: nat)
    requires Total(less) && InOrder(less, s) && i < |s|
    ensures !less(s[i], s[0])
  {
    if i > 0 {
      HeadIsLeast(less, s, i - 1);
      assert !less(s[i], s[i - 1]);
      assert s[i] != s[i - 1] ==> less(s[i - 1], s[i]);
    }
  }

  lemma SameLeast<T(!new)>(less: (T, T) -> bool, a: seq<T>, b: seq<T>)
    requires Total(less) && InOrder(less, a) && InOrder(less, b) && multiset(a) == multiset(b)
    requires a != [] && b != []
    ensures a[0] == b[0]
  {
    assert a[0] in multiset(b);
    var j :| 0 <= j < |b| && b[j] == a[0];
    assert b[0] in multiset(a);
    var i :| 0 <= i < |a| && a[i] == b[0];
    HeadIsLeast(less, a, i);
    HeadIsLeast(less, b, j);
  }

  /** A total order leaves one way to sort. */
  lemma {:induction false} OneOrder<T(!new)>(less: (T, T) -> bool, a: seq<T>, b: seq<T>)
    requires Total(less) && InOrder(less, a) && InOrder(less, b) && multiset(a) == multiset(b)
    ensures a == b
  {
    if a == [] {
      assert |multiset(b)| == |b| && |multiset(a)| == 0;
    } else {
      assert |multiset(a)| == |a| && |multiset(b)| == |b|;
      SameLeast(less, a, b);
      assert a == [a[0]] + a[1..] && b == [b[0]] + b[1..];
      assert multiset(a[1..]) == multiset(a) - multiset{a[0]};
      assert multiset(b[1..]) == multiset(b) - multiset{b[0]};
      OneOrder(less, a[1..], b[1..]);
    }
  }

  /** Sorting forgets the order of its input. */
  lemma SortedForgetsOrder<T(!new)>(less: (T, T) -> bool, a: seq<T>, b: seq<T>)
    requires Total(less) && multiset(a) == multiset(b)
    ensures Sorted(less, a) == Sorted(less, b)
  {
    SortedIsOrdered(less, a);
    SortedIsOrdered(less, b);
    OneOrder(less, Sorted(less, a), Sorted(less, b));
  }

  lemma {:induction false} LessTextTransitive(a: string, b: string, c: string)
    ensures LessText(a, b) && LessText(b, c) ==> LessText(a, c)
  {
    if a != [] && b != [] && c != [] {
      LessTextTransitive(a[1..], b[1..], c[1..]);
    }
  }

  /** The texts agree up to position `i`, where `a` has the smaller character. */
  predicate SmallerAt(a: string, b: string, i: nat) {
    i < |a| && i < |b| && a[..i] == b[..i] && a[i] < b[i]
  }

  /** `a` comes before `b` in a dictionary: it is a shorter beginning of it, or has the smaller
      character at the first difference. */
  ghost predicate Precedes(a: string, b: string) {
    a < b || exists i: nat :: SmallerAt(a, b, i)
  }

  lemma {:induction false} LessTextIff(a: string, b: string)
    ensures LessText(a, b) <==> Precedes(a, b)
  {
    if a != [] && b != [] && a[0] == b[0] {
      LessTextIff(a[1..], b[1..]);
      SameHead(a, b);
    } else if a != [] && b != [] {
      if a[0] < b[0] {
        assert SmallerAt(a, b, 0);
      }
      DifferentHead(a, b);
    }
  }

  lemma SameHead(a: string, b: string)
    requires a != [] && b != [] && a[0] == b[0]
    ensures Precedes(a, b) <==> Precedes(a[1..], b[1..])
  {
    assert a == [a[0]] + a[1..] && b == [b[0]] + b[1..];
    if i: nat :| SmallerAt(a, b, i) {
      assert a[1..][..i - 1] == a[..i][1..] && b[1..][..i - 1] == b[..i][1..];
      assert SmallerAt(a[1..], b[1..], i - 1);
    }
    if i: nat :| SmallerAt(a[1..], b[1..], i) {
      assert a[..i + 1] == [a[0]] + a[1..][..i] && b[..i + 1] == [b[0]] + b[1..][..i];
      assert SmallerAt(a, b, i + 1);
    }
  }

  lemma DifferentHead(a: string, b: string)
    requires a != [] && b != [] && a[0] != b[0]
    ensures Precedes(a, b) ==> a[0] < b[0]
  {
    if i: nat :| SmallerAt(a, b, i) {
      if i > 0 {
        assert a[..i][0] == b[..i][0];
      }
    }
  }

  /** sorted() of texts: the same texts in dictionary order. */
  lemma SortedTextsAre(s: seq<string>)
    ensures multiset(Sorted(LessText, s)) == multiset(s) && |Sorted(LessText, s)| == |s|
    ensures forall i, j :: 0 <= i < j < |s| ==> !Precedes(Sorted(LessText, s)[j], Sorted(LessText, s)[i])
  {
    TextOrderIsTotal();
    SortedIsOrdered(LessText, s);
    var r := Sorted(LessText, s);
    forall i, j | 0 <= i < j < |s| ensures !Precedes(r[j], r[i]) {
      NeverBefore(LessText, r, i, j);
      LessTextIff(r[j], r[i]);
    }
  }

  lemma {:induction false} NeverBefore<T(!new)>(less: (T, T) -> bool, s: seq<T>, i: nat, j: nat)
    requires Total(less) && InOrder(less, s) && i < j < |s|
    ensures !less(s[j], s[i])
  {
    assert InOrder(less, s[i..]);
    HeadIsLeast(less, s[i..], j - i);
  }

  lemma TextOrderIsTotal()
    ensures Total(LessText)
  {
    forall a, b ensures LessText(a, b) ==> !LessText(b, a) {
      LessTextAsymmetric(a, b);
    }
    forall a, b ensures LessText(a, b) || LessText(b, a) || a == b {
      LessTextTotal(a, b);
    }
    forall a, b, c ensures LessText(a, b) && LessText(b, c) ==> LessText(a, c) {
      LessTextTransitive(a, b, c);
    }
  }
}
