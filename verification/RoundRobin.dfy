/** Round-robin ordering of a plan: launch_trials.py and split_plan_chunks.py
    drain one queue per bench, and then one queue per task, taking one element
    of every non-empty queue in turn. */
module RoundRobin {
  import opened Plans

  function FirstOf<V>(q: seq<V>): seq<V> {
    if q == [] then [] else [q[0]]
  }

  /** One turn: the first element of every queue that has one. */
  function Heads<V>(qs: seq<seq<V>>): seq<V> {
    if qs == [] then []
    else FirstOf(qs[0]) + Heads(qs[1..])
  }

  function Tails<V>(qs: seq<seq<V>>): (r: seq<seq<V>>)
    ensures |r| == |qs|
  {
    seq(|qs|, i requires 0 <= i < |qs| => if qs[i] == [] then [] else qs[i][1..])
  }

  function Total<V>(qs: seq<seq<V>>): nat {
    if qs == [] then 0 else |qs[0]| + Total(qs[1..])
  }

  predicate Drained<V>(qs: seq<seq<V>>) {
    forall i :: 0 <= i < |qs| ==> qs[i] == []
  }

  lemma TurnShrinks<V>(qs: seq<seq<V>>)
    ensures Total(qs) == |Heads(qs)| + Total(Tails(qs))
    ensures Drained(qs) <==> Heads(qs) == []
  {
    if qs != [] {
      assert Tails(qs)[1..] == Tails(qs[1..]);
      TurnShrinks(qs[1..]);
    }
  }

  /** Turn after turn until every queue is empty. */
  function RoundRobin<V>(qs: seq<seq<V>>): seq<V>
    decreases Total(qs)
  {
    TurnShrinks(qs);
    if Drained(qs) then [] else Heads(qs) + RoundRobin(Tails(qs))
  }

  /** Queue `i` holds only elements of colour `order[i]`, and colours differ. */
  ghost predicate Coloured<V, K>(qs: seq<seq<V>>, order: seq<K>, colour: V -> K) {
    && |qs| == |order|
    && NoDuplicates(order)
    && forall i :: 0 <= i < |qs| ==> forall v :: v in qs[i] ==> colour(v) == order[i]
  }

  lemma {:induction false} PickHeads<V, K>(qs: seq<seq<V>>, order: seq<K>, colour: V -> K, k: K)
    requires Coloured(qs, order, colour)
    ensures k !in order ==> Pick(Heads(qs), colour, k) == []
    ensures forall i :: 0 <= i < |order| && order[i] == k ==>
                          Pick(Heads(qs), colour, k) == FirstOf(qs[i])
  {
    if qs != [] {
      var first := FirstOf(qs[0]);
      assert NoDuplicates(order[1..]) by {
        forall i, j | 0 <= i < j < |order[1..]| ensures order[1..][i] != order[1..][j] {
          assert order[1..][i] == order[i + 1] && order[1..][j] == order[j + 1];
        }
      }
      PickHeads(qs[1..], order[1..], colour, k);
      PickConcat(first, Heads(qs[1..]), colour, k);
      forall i | 0 <= i < |order| && order[i] == k
        ensures Pick(Heads(qs), colour, k) == FirstOf(qs[i])
      {
        if i == 0 {
          assert k !in order[1..];
        } else {
          assert order[1..][i - 1] == k && qs[1..][i - 1] == qs[i];
          assert order[0] != k;
        }
      }
    }
  }

  lemma TailsColoured<V, K>(qs: seq<seq<V>>, order: seq<K>, colour: V -> K)
    requires Coloured(qs, order, colour)
    ensures Coloured(Tails(qs), order, colour)
  {
  }

  /** Draining keeps each queue's own order and loses nothing. */
  lemma {:induction false} KeepsEachQueue<V, K>(qs: seq<seq<V>>, order: seq<K>, colour: V -> K, k: K)
    requires Coloured(qs, order, colour)
    ensures k !in order ==> Pick(RoundRobin(qs), colour, k) == []
    ensures forall i :: 0 <= i < |order| && order[i] == k ==> Pick(RoundRobin(qs), colour, k) == qs[i]
    decreases Total(qs)
  {
    TurnShrinks(qs);
    if !Drained(qs) {
      PickHeads(qs, order, colour, k);
      TailsColoured(qs, order, colour);
      KeepsEachQueue(Tails(qs), order, colour, k);
      PickConcat(Heads(qs), RoundRobin(Tails(qs)), colour, k);
      forall i | 0 <= i < |order| && order[i] == k ensures Pick(RoundRobin(qs), colour, k) == qs[i] {
        FirstAndTail(qs, i);
      }
    }
  }

  lemma FirstAndTail<V>(qs: seq<seq<V>>, i: nat)
    requires i < |qs|
    ensures qs[i] == FirstOf(qs[i]) + Tails(qs)[i]
  {
  }

  /** What a prefix has taken from a queue: its share of the first turn, then
      its share of the turns that follow. */
  lemma PrefixSplits<V, K>(qs: seq<seq<V>>, order: seq<K>, colour: V -> K, n: nat, i: nat)
    requires Coloured(qs, order, colour) && i < |order|
    requires |Heads(qs)| < n <= |RoundRobin(qs)|
    ensures n - |Heads(qs)| <= |RoundRobin(Tails(qs))|
    ensures Pick(RoundRobin(qs)[..n], colour, order[i])
            == FirstOf(qs[i]) + Pick(RoundRobin(Tails(qs))[..n - |Heads(qs)|], colour, order[i])
  {
    TurnPrefix(qs, n);
    TurnAndRest(qs, order, colour, RoundRobin(Tails(qs))[..n - |Heads(qs)|], i);
  }

  lemma TurnAndRest<V, K>(qs: seq<seq<V>>, order: seq<K>, colour: V -> K, rest: seq<V>, i: nat)
    requires Coloured(qs, order, colour) && i < |order|
    ensures Pick(Heads(qs) + rest, colour, order[i]) == FirstOf(qs[i]) + Pick(rest, colour, order[i])
  {
    PickConcat(Heads(qs), rest, colour, order[i]);
    PickHeads(qs, order, colour, order[i]);
  }

  lemma TurnPrefix<V>(qs: seq<seq<V>>, n: nat)
    requires |Heads(qs)| < n <= |RoundRobin(qs)|
    ensures n - |Heads(qs)| <= |RoundRobin(Tails(qs))|
    ensures RoundRobin(qs)[..n] == Heads(qs) + RoundRobin(Tails(qs))[..n - |Heads(qs)|]
  {
    TurnShrinks(qs);
  }

  lemma FirstTurnTakesOne<V, K>(qs: seq<seq<V>>, order: seq<K>, colour: V -> K, n: nat, i: nat)
    requires Coloured(qs, order, colour) && i < |order|
    requires n <= |RoundRobin(qs)| && n <= |Heads(qs)|
    ensures |Pick(RoundRobin(qs)[..n], colour, order[i])| <= 1
  {
    TurnShrinks(qs);
    assert RoundRobin(qs)[..n] == Heads(qs)[..n];
    PickPrefixNoLonger(Heads(qs), n, colour, order[i]);
    PickHeads(qs, order, colour, order[i]);
  }

  lemma EmptiedQueueIsTaken<V, K>(qs: seq<seq<V>>, order: seq<K>, colour: V -> K, n: nat, j: nat)
    requires Coloured(qs, order, colour) && n <= |RoundRobin(qs)| && j < |order| && qs[j] == []
    ensures Pick(RoundRobin(qs)[..n], colour, order[j]) == []
  {
    KeepsEachQueue(qs, order, colour, order[j]);
    PickPrefixNoLonger(RoundRobin(qs), n, colour, order[j]);
  }

  /** Fairness: in every prefix a queue is more than one element behind another
      only when it has already been emptied. */
  lemma {:induction false} Fair<V, K>(qs: seq<seq<V>>, order: seq<K>, colour: V -> K, n: nat, i: nat, j: nat)
    requires Coloured(qs, order, colour)
    requires n <= |RoundRobin(qs)| && i < |order| && j < |order|
    requires |Pick(RoundRobin(qs)[..n], colour, order[i])| > |Pick(RoundRobin(qs)[..n], colour, order[j])| + 1
    ensures Pick(RoundRobin(qs)[..n], colour, order[j]) == qs[j]
    decreases Total(qs)
  {
    if qs[j] == [] {
      EmptiedQueueIsTaken(qs, order, colour, n, j);
    } else if n <= |Heads(qs)| {
      FirstTurnTakesOne(qs, order, colour, n, i);
    } else {
      TurnShrinks(qs);
      PrefixSplits(qs, order, colour, n, i);
      PrefixSplits(qs, order, colour, n, j);
      TailsColoured(qs, order, colour);
      Fair(Tails(qs), order, colour, n - |Heads(qs)|, i, j);
      FirstAndTail(qs, j);
    }
  }

  // ---- where each element goes ------------------------------------------------------------

  /** How many of the first `n` elements the queue has. */
  function Share<V>(q: seq<V>, n: nat): nat { if n <= |q| then n else |q| }

  /** How many elements are taken before element `t` of queue `i`: from each queue before it the
      first `t + 1`, and from the others the first `t`, as far as they go. */
  function TakenBefore<V>(qs: seq<seq<V>>, i: int, t: nat): nat {
    if qs == [] then 0
    else Share(qs[0], if i > 0 then t + 1 else t) + TakenBefore(qs[1..], i - 1, t)
  }

  lemma {:induction false} HeadStandsAt<V>(qs: seq<seq<V>>, i: nat)
    requires i < |qs| && qs[i] != []
    ensures TakenBefore(qs, i, 0) < |Heads(qs)| && Heads(qs)[TakenBefore(qs, i, 0)] == qs[i][0]
  {
    if i == 0 {
      NothingBeforeFirst(qs[1..], -1);
    } else {
      HeadStandsAt(qs[1..], i - 1);
    }
  }

  lemma {:induction false} NothingBeforeFirst<V>(qs: seq<seq<V>>, i: int)
    requires i <= 0
    ensures TakenBefore(qs, i, 0) == 0
  {
    if qs != [] {
      NothingBeforeFirst(qs[1..], i - 1);
    }
  }

  lemma {:induction false} OneTurnBefore<V>(qs: seq<seq<V>>, i: int, t: nat)
    ensures TakenBefore(qs, i, t + 1) == |Heads(qs)| + TakenBefore(Tails(qs), i, t)
  {
    if qs != [] {
      assert Tails(qs)[1..] == Tails(qs[1..]);
      OneTurnBefore(qs[1..], i - 1, t);
    }
  }

  /** The round robin puts every element in the place it has by its turn and its queue. */
  lemma {:induction false} StandsInTurn<V>(qs: seq<seq<V>>, i: nat, t: nat)
    requires i < |qs| && t < |qs[i]|
    ensures TakenBefore(qs, i, t) < |RoundRobin(qs)| && RoundRobin(qs)[TakenBefore(qs, i, t)] == qs[i][t]
    decreases t
  {
    FirstTurn(qs, i);
    if t == 0 {
      HeadStandsAt(qs, i);
    } else {
      StandsInTurn(Tails(qs), i, t - 1);
      LaterTurn(qs, i, t, Tails(qs), RoundRobin(Tails(qs)));
    }
  }

  lemma LaterTurn<V>(qs: seq<seq<V>>, i: nat, t: nat, tails: seq<seq<V>>, rest: seq<V>)
    requires i < |qs| && 0 < t < |qs[i]| && tails == Tails(qs)
    requires TakenBefore(tails, i, t - 1) < |rest| && rest[TakenBefore(tails, i, t - 1)] == tails[i][t - 1]
    ensures TakenBefore(qs, i, t) < |Heads(qs) + rest| && (Heads(qs) + rest)[TakenBefore(qs, i, t)] == qs[i][t]
  {
    OneTurnBefore(qs, i, t - 1);
    AfterFirstTurn(Heads(qs), rest, TakenBefore(tails, i, t - 1));
  }

  lemma FirstTurn<V>(qs: seq<seq<V>>, i: nat)
    requires i < |qs| && qs[i] != []
    ensures RoundRobin(qs) == Heads(qs) + RoundRobin(Tails(qs))
  {
    TurnShrinks(qs);
    assert !Drained(qs);
  }

  lemma AfterFirstTurn<V>(a: seq<V>, b: seq<V>, n: nat)
    requires n < |b|
    ensures (a + b)[|a| + n] == b[n]
  {
  }

  lemma {:induction false} TotalIsLength<V>(qs: seq<seq<V>>)
    ensures |RoundRobin(qs)| == Total(qs)
    decreases Total(qs)
  {
    TurnShrinks(qs);
    if Drained(qs) {
      DrainedIsNothing(qs);
    } else {
      TotalIsLength(Tails(qs));
    }
  }

  lemma {:induction false} DrainedIsNothing<V>(qs: seq<seq<V>>)
    requires Drained(qs)
    ensures Total(qs) == 0
  {
    if qs != [] {
      assert qs[0] == [];
      DrainedIsNothing(qs[1..]);
    }
  }

  /** The queues named by `order`, read off the dictionary of queues. */
  function Rows<K(==), V>(order: seq<K>, queues: map<K, seq<V>>): (r: seq<seq<V>>)
    requires forall k :: k in order ==> k in queues
    ensures |r| == |order|
  {
    seq(|order|, i requires 0 <= i < |order| => queues[order[i]])
  }

  lemma HeadsSnoc<V>(qs: seq<seq<V>>, q: seq<V>)
    ensures Heads(qs + [q]) == Heads(qs) + FirstOf(q)
  {
    if qs != [] {
      assert (qs + [q])[1..] == qs[1..] + [q];
      HeadsSnoc(qs[1..], q);
    }
  }

  /** One `for key in order` sweep that pops the front of each non-empty queue. */
  method SweepOnce<K(==), V>(order: seq<K>, queues: map<K, seq<V>>)
    returns (taken: seq<V>, left: map<K, seq<V>>)
    requires NoDuplicates(order)
    requires forall k :: k in order ==> k in queues
    ensures left.Keys == queues.Keys
    ensures taken == Heads(Rows(order, queues))
    ensures Rows(order, left) == Tails(Rows(order, queues))
  {
    var rows := Rows(order, queues);
    taken, left := [], queues;
    for i := 0 to |order|
      invariant left.Keys == queues.Keys
      invariant taken == Heads(rows[..i])
      invariant forall j :: 0 <= j < i ==> left[order[j]] == Tails(rows)[j]
      invariant forall j :: i <= j < |order| ==> left[order[j]] == queues[order[j]]
    {
      var key := order[i];
      assert rows[..i + 1] == rows[..i] + [rows[i]];
      HeadsSnoc(rows[..i], rows[i]);
      if left[key] != [] {
        taken := taken + [left[key][0]];
        left := left[key := left[key][1..]];
      }
    }
    assert rows[..|order|] == rows;
  }

  /** What a sweep takes moves from what is to come to what has been taken. */
  lemma NextTurn<V>(out: seq<V>, qs: seq<seq<V>>)
    ensures (out + Heads(qs)) + RoundRobin(Tails(qs)) == out + RoundRobin(qs)
    ensures if Drained(qs) then Heads(qs) == [] && Drained(Tails(qs)) else Heads(qs) != []
    ensures Total(Tails(qs)) == Total(qs) - |Heads(qs)|
  {
    TurnShrinks(qs);
    if Drained(qs) {
      assert Drained(Tails(qs));
    }
    AssocSeq(out, Heads(qs), RoundRobin(Tails(qs)));
  }

  /** `while any(queues[k] for k in order)`, as in the bench-level ordering. */
  method DrainWhileAny<K(==), V>(order: seq<K>, queues: map<K, seq<V>>) returns (out: seq<V>)
    requires NoDuplicates(order)
    requires forall k :: k in order ==> k in queues
    ensures out == RoundRobin(Rows(order, queues))
  {
    out := [];
    var qs := queues;
    while exists i :: 0 <= i < |order| && qs[order[i]] != []
      invariant qs.Keys == queues.Keys
      invariant out + RoundRobin(Rows(order, qs)) == RoundRobin(Rows(order, queues))
      decreases Total(Rows(order, qs))
    {
      ghost var i :| 0 <= i < |order| && qs[order[i]] != [];
      assert Rows(order, qs)[i] != [];
      NextTurn(out, Rows(order, qs));
      var taken, left := SweepOnce(order, qs);
      out, qs := out + taken, left;
    }
  }

  /** The `remaining` flag loop of the task-level interleaving; it makes one
      last sweep over empty queues before it stops. */
  method DrainWhileRemaining<K(==), V>(order: seq<K>, queues: map<K, seq<V>>) returns (out: seq<V>)
    requires NoDuplicates(order)
    requires forall k :: k in order ==> k in queues
    ensures out == RoundRobin(Rows(order, queues))
  {
    out := [];
    var qs := queues;
    var remaining := true;
    while remaining
      invariant qs.Keys == queues.Keys
      invariant out + RoundRobin(Rows(order, qs)) == RoundRobin(Rows(order, queues))
      invariant !remaining ==> Drained(Rows(order, qs))
      decreases Total(Rows(order, qs)), remaining
    {
      NextTurn(out, Rows(order, qs));
      var taken, left := SweepOnce(order, qs);
      remaining := taken != [];
      out, qs := out + taken, left;
    }
  }
}
