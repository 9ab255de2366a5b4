/** Trial-plan records and the selections made on them: a trial belongs to a
    bench and a task, and most of the launcher's promises are about the trials
    of one task, in plan order. */
module Plans {

  datatype Option<+T> = None | Some(value: T)

  datatype Result<+T, +E> = Ok(value: T) | Err(error: E)

  datatype TaskKey = TaskKey(bench: string, task: string)

  /** `slot` is the CLAW_WORKER_IDX entry of the record's environment. */
  datatype Trial = Trial(bench: string, task: string, id: string, slot: Option<nat>)

  const CLAW := "claw"

  function KeyOf(t: Trial): TaskKey {
    TaskKey(t.bench, t.task)
  }

  /** The elements of `s` that carry colour `k`, in order. */
  function Pick<V, K(==)>(s: seq<V>, colour: V -> K, k: K): (r: seq<V>)
    ensures |r| <= |s|
  {
    if s == [] then []
    else (if colour(s[0]) == k then [s[0]] else []) + Pick(s[1..], colour, k)
  }

  predicate NoDuplicates<T(==)>(s: seq<T>) {
    forall i, j :: 0 <= i < j < |s| ==> s[i] != s[j]
  }

  lemma {:induction false} PickConcat<V, K>(a: seq<V>, b: seq<V>, colour: V -> K, k: K)
    ensures Pick(a + b, colour, k) == Pick(a, colour, k) + Pick(b, colour, k)
  {
    if a == [] {
      assert a + b == b;
    } else {
      var first := if colour(a[0]) == k then [a[0]] else [];
      calc {
        Pick(a + b, colour, k);
        { assert (a + b)[1..] == a[1..] + b; assert (a + b)[0] == a[0]; }
        first + Pick(a[1..] + b, colour, k);
        { PickConcat(a[1..], b, colour, k); }
        first + (Pick(a[1..], colour, k) + Pick(b, colour, k));
        Pick(a, colour, k) + Pick(b, colour, k);
      }
    }
  }

  lemma AssocSeq<T>(a: seq<T>, b: seq<T>, c: seq<T>)
    ensures (a + b) + c == a + (b + c)
  {
  }

  lemma SplitAt<T>(s: seq<T>, n: nat)
    requires n < |s|
    ensures s == s[..n] + [s[n]] + s[n + 1..]
  {
  }

  lemma TakeSnoc<T>(s: seq<T>, n: nat)
    requires n < |s|
    ensures s[..n] + [s[n]] == s[..n + 1]
  {
  }

  lemma PickSnoc<V, K>(s: seq<V>, x: V, colour: V -> K, k: K)
    ensures Pick(s + [x], colour, k) == Pick(s, colour, k) + (if colour(x) == k then [x] else [])
  {
    PickConcat(s, [x], colour, k);
  }

  /** Selecting one colour keeps every occurrence of an element of that colour. */
  lemma {:induction false} PickCounts<V, K>(s: seq<V>, colour: V -> K, v: V)
    ensures multiset(Pick(s, colour, colour(v)))[v] == multiset(s)[v]
  {
    if s != [] {
      assert s == [s[0]] + s[1..];
      var rest := Pick(s[1..], colour, colour(v));
      PickCounts(s[1..], colour, v);
      if colour(s[0]) == colour(v) {
        assert Pick(s, colour, colour(v)) == [s[0]] + rest;
      } else {
        assert Pick(s, colour, colour(v)) == rest;
      }
    }
  }

  lemma {:induction false} PickMembers<V, K>(s: seq<V>, colour: V -> K, k: K)
    ensures forall v :: v in Pick(s, colour, k) <==> v in s && colour(v) == k
  {
    if s != [] {
      assert s == [s[0]] + s[1..];
      PickMembers(s[1..], colour, k);
    }
  }

  lemma {:induction false} PickNone<V, K>(s: seq<V>, colour: V -> K, k: K)
    requires forall v :: v in s ==> colour(v) != k
    ensures Pick(s, colour, k) == []
  {
    if s != [] {
      PickNone(s[1..], colour, k);
    }
  }

  /** Two lists that agree colour by colour are permutations of each other. */
  lemma SamePicksPermute<V, K>(a: seq<V>, b: seq<V>, colour: V -> K)
    requires forall k :: Pick(a, colour, k) == Pick(b, colour, k)
    ensures multiset(a) == multiset(b)
  {
    forall v ensures multiset(a)[v] == multiset(b)[v] {
      PickCounts(a, colour, v);
      PickCounts(b, colour, v);
      assert Pick(a, colour, colour(v)) == Pick(b, colour, colour(v));
    }
  }

  lemma PickPrefixNoLonger<V, K>(s: seq<V>, n: nat, colour: V -> K, k: K)
    requires n <= |s|
    ensures Pick(s[..n], colour, k) <= Pick(s, colour, k)
  {
    assert s == s[..n] + s[n..];
    PickConcat(s[..n], s[n..], colour, k);
  }

  /** No element repeats as soon as none repeats within its own colour. */
  lemma NoDuplicatesByColour<V, K>(s: seq<V>, colour: V -> K)
    requires forall k :: NoDuplicates(Pick(s, colour, k))
    ensures NoDuplicates(s)
  {
    forall i, j | 0 <= i < j < |s| ensures s[i] != s[j] {
      if s[i] == s[j] {
        RepeatCountsTwice(s, i, j);
        PickCounts(s, colour, s[i]);
        DistinctCountsOnce(Pick(s, colour, colour(s[i])), s[i]);
      }
    }
  }

  lemma RepeatCountsTwice<T>(s: seq<T>, i: nat, j: nat)
    requires i < j < |s| && s[i] == s[j]
    ensures multiset(s)[s[i]] >= 2
  {
    assert s == s[..j] + s[j..];
    assert s[i] in s[..j] && s[i] in s[j..];
    assert s[i] in multiset(s[..j]) && s[i] in multiset(s[j..]);
  }

  lemma {:induction false} DistinctCountsOnce<T>(s: seq<T>, v: T)
    requires NoDuplicates(s)
    ensures multiset(s)[v] == if v in s then 1 else 0
  {
    if s != [] {
      assert s == [s[0]] + s[1..];
      assert NoDuplicates(s[1..]);
      DistinctCountsOnce(s[1..], v);
    }
  }

  lemma PickCons<V, K>(x: V, rest: seq<V>, colour: V -> K, k: K)
    ensures Pick([x] + rest, colour, k) == (if colour(x) == k then [x] + Pick(rest, colour, k) else Pick(rest, colour, k))
  {
    assert ([x] + rest)[1..] == rest;
  }

  /** Two selections can be made in either order. */
  lemma {:induction false} PickSwap<V, A, B>(s: seq<V>, c: V -> A, a: A, d: V -> B, b: B)
    ensures Pick(Pick(s, c, a), d, b) == Pick(Pick(s, d, b), c, a)
  {
    if s != [] {
      var x, rest := s[0], s[1..];
      assert s == [x] + rest;
      PickSwap(rest, c, a, d, b);
      PickCons(x, rest, c, a);
      PickCons(x, rest, d, b);
      PickCons(x, Pick(rest, c, a), d, b);
      PickCons(x, Pick(rest, d, b), c, a);
    }
  }

  /** Selecting by a condition after a weaker one is selecting by it at once. */
  lemma {:induction false} PickImplied<V>(s: seq<V>, weak: V -> bool, strong: V -> bool)
    requires forall v :: v in s && strong(v) ==> weak(v)
    ensures Pick(Pick(s, weak, true), strong, true) == Pick(s, strong, true)
  {
    if s != [] {
      var x, rest := s[0], s[1..];
      assert s == [x] + rest;
      PickImplied(rest, weak, strong);
      PickCons(x, rest, weak, true);
      PickCons(x, rest, strong, true);
      PickCons(x, Pick(rest, weak, true), strong, true);
    }
  }

  lemma PermutedDistinct<T>(a: seq<T>, b: seq<T>)
    requires NoDuplicates(a) && multiset(a) == multiset(b)
    ensures NoDuplicates(b)
  {
    forall i, j | 0 <= i < j < |b| ensures b[i] != b[j] {
      if b[i] == b[j] {
        RepeatCountsTwice(b, i, j);
        DistinctCountsOnce(a, b[i]);
      }
    }
  }

  lemma PickKeepsDistinct<V, K>(s: seq<V>, colour: V -> K, k: K)
    requires NoDuplicates(s)
    ensures NoDuplicates(Pick(s, colour, k))
  {
    if s != [] {
      assert NoDuplicates(s[1..]);
      PickKeepsDistinct(s[1..], colour, k);
      PickMembers(s[1..], colour, k);
    }
  }

  lemma SubsetSize<T>(a: set<T>, b: set<T>)
    requires a <= b
    ensures |a| <= |b|
  {
    assert b == a + (b - a);
  }

  /** The lists one after the other. */
  function Flatten<T>(ss: seq<seq<T>>): seq<T> {
    if ss == [] then [] else ss[0] + Flatten(ss[1..])
  }

  lemma {:induction false} FlattenSnoc<T>(ss: seq<seq<T>>, s: seq<T>)
    ensures Flatten(ss + [s]) == Flatten(ss) + s
  {
    if ss == [] {
      assert [] + [s] == [s] && [s][1..] == [];
      assert Flatten([s]) == s + Flatten([]);
    } else {
      assert (ss + [s])[1..] == ss[1..] + [s];
      FlattenSnoc(ss[1..], s);
      AssocSeq(ss[0], Flatten(ss[1..]), s);
    }
  }

  /** Position of the first `k`, or the length. */
  function IndexOf<T(==)>(order: seq<T>, k: T): (i: nat)
    ensures i <= |order| && (i < |order| <==> k in order) && (i < |order| ==> order[i] == k)
  {
    if order == [] then 0 else if order[0] == k then 0 else 1 + IndexOf(order[1..], k)
  }

  lemma SamePosition<T>(s: seq<T>, i: nat, j: nat)
    requires NoDuplicates(s) && i < |s| && j < |s| && s[i] == s[j]
    ensures i == j
  {
  }

  lemma IndexOfDistinct<T>(order: seq<T>, i: nat)
    requires NoDuplicates(order) && i < |order|
    ensures IndexOf(order, order[i]) == i
  {
    var j := IndexOf(order, order[i]);
    SamePosition(order, i, j);
  }
}
