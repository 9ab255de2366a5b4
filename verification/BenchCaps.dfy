/** launch_trials.py, parse_bench_caps: the caps a scheduling pass runs under. Python's
    int() is a parameter. */
module BenchCaps {
  import opened Plans
  import opened Text
  import opened Scheduling

  datatype CapError = NoEquals(item: string) | NotAnInteger(item: string) | NotPositive(item: string)

  /** Position of the first `c`, or the length. */
  function Find(s: string, c: char): (i: nat)
    ensures i <= |s| && (forall j :: 0 <= j < i ==> s[j] != c) && (i < |s| ==> s[i] == c)
  {
    if s == [] || s[0] == c then 0 else 1 + Find(s[1..], c)
  }

  /** `s.split(c)` */
  function Split(s: string, c: char): (parts: seq<string>)
    ensures parts != []
  {
    var i := Find(s, c);
    if i == |s| then [s] else [s[..i]] + Split(s[i + 1..], c)
  }

  /** One item: None for a blank one. */
  function ReadItem(toInt: string -> Option<int>, raw: string): Result<Option<(string, int)>, CapError> {
    var item := Strip(raw);
    if item == "" then Ok(None)
    else
      var at := Find(item, '=');
      if at == |item| then Err(NoEquals(item))
      else
        var cap := toInt(item[at + 1..]);
        if cap.None? then Err(NotAnInteger(item))
        else if cap.value <= 0 then Err(NotPositive(item))
        else Ok(Some((Strip(item[..at]), cap.value)))
  }

  /** The caps after one more item. */
  function Next(before: Result<map<string, int>, CapError>, item: Result<Option<(string, int)>, CapError>)
    : Result<map<string, int>, CapError>
  {
    if before.Err? then before
    else if item.Err? then Err(item.error)
    else if item.value.None? then before
    else Ok(before.value[item.value.value.0 := item.value.value.1])
  }

  /** The items read one after the other; the first bad one decides. */
  function ReadFrom(toInt: string -> Option<int>, caps: Result<map<string, int>, CapError>, items: seq<string>)
    : Result<map<string, int>, CapError>
    decreases |items|
  {
    if items == [] then caps else ReadFrom(toInt, Next(caps, ReadItem(toInt, items[0])), items[1..])
  }

  function ReadItems(toInt: string -> Option<int>, items: seq<string>): Result<map<string, int>, CapError> {
    ReadFrom(toInt, Ok(map[]), items)
  }

  lemma {:induction false} ReadFromConcat(toInt: string -> Option<int>, caps: Result<map<string, int>, CapError>,
                                          a: seq<string>, b: seq<string>)
    ensures ReadFrom(toInt, caps, a + b) == ReadFrom(toInt, ReadFrom(toInt, caps, a), b)
    decreases |a|
  {
    if a == [] {
      assert a + b == b;
    } else {
      assert (a + b)[1..] == a[1..] + b;
      ReadFromConcat(toInt, Next(caps, ReadItem(toInt, a[0])), a[1..], b);
    }
  }

  lemma {:induction false} ErrorStays(toInt: string -> Option<int>, caps: Result<map<string, int>, CapError>, items: seq<string>)
    requires caps.Err?
    ensures ReadFrom(toInt, caps, items) == caps
    decreases |items|
  {
    if items != [] {
      ErrorStays(toInt, caps, items[1..]);
    }
  }

  lemma ReadSnoc(toInt: string -> Option<int>, items: seq<string>, item: string)
    ensures ReadItems(toInt, items + [item]) == Next(ReadItems(toInt, items), ReadItem(toInt, item))
  {
    ReadFromConcat(toInt, Ok(map[]), items, [item]);
    assert [item][1..] == [];
  }

  function AllItems(values: seq<string>): seq<string> {
    if values == [] then [] else Split(values[0], ',') + AllItems(values[1..])
  }

  // ---- what an item says ------------------------------------------------------------------

  /** `item` is `name=number`: the name has no `=`, the number reads as `cap`, which is at least
      one, and the bench is the name without the white space around it. */
  predicate SaysCap(toInt: string -> Option<int>, item: string, name: string, number: string, bench: string, cap: int) {
    item == name + "=" + number && '=' !in name && toInt(number) == Some(cap) && cap >= 1 && bench == Strip(name)
  }

  lemma FirstEquals(name: string, number: string)
    requires '=' !in name
    ensures Find(name + "=" + number, '=') == |name|
  {
    var item := name + "=" + number;
    assert item[|name|] == '=' && forall j :: 0 <= j < |name| ==> item[j] == name[j];
  }

  lemma CutAtEquals(item: string, at: nat)
    requires at < |item| && item[at] == '='
    ensures item == item[..at] + "=" + item[at + 1..]
  {
  }

  /** An item gives a bench a cap exactly if it is written so. */
  lemma GivesIff(toInt: string -> Option<int>, raw: string, bench: string, cap: int)
    ensures Gives(toInt, raw, bench, cap) <==> exists name, number :: SaysCap(toInt, Strip(raw), name, number, bench, cap)
  {
    if Gives(toInt, raw, bench, cap) {
      GivenIsSaid(toInt, raw, bench, cap);
    }
    if name, number :| SaysCap(toInt, Strip(raw), name, number, bench, cap) {
      SaidIsGiven(toInt, raw, name, number, bench, cap);
    }
  }

  lemma GivenIsSaid(toInt: string -> Option<int>, raw: string, bench: string, cap: int)
    requires Gives(toInt, raw, bench, cap)
    ensures exists name, number :: SaysCap(toInt, Strip(raw), name, number, bench, cap)
  {
    var item := Strip(raw);
    var at := Find(item, '=');
    CutAtEquals(item, at);
    assert SaysCap(toInt, item, item[..at], item[at + 1..], bench, cap);
  }

  lemma SaidIsGiven(toInt: string -> Option<int>, raw: string, name: string, number: string, bench: string, cap: int)
    requires SaysCap(toInt, Strip(raw), name, number, bench, cap)
    ensures Gives(toInt, raw, bench, cap)
  {
    var item := Strip(raw);
    FirstEquals(name, number);
    assert item[..|name|] == name && item[|name| + 1..] == number;
  }

  /** An item is skipped exactly if it is blank, and refused exactly if it is not blank and has no
      `=`, or has no integer after the first one, or one that is not positive. */
  lemma RefusedWhen(toInt: string -> Option<int>, raw: string)
    ensures ReadItem(toInt, raw) == Ok(None) <==> AllSpace(raw)
    ensures ReadItem(toInt, raw) == Err(NoEquals(Strip(raw))) <==> !AllSpace(raw) && '=' !in Strip(raw)
    ensures forall name, number :: Strip(raw) == name + "=" + number && '=' !in name ==>
              && (ReadItem(toInt, raw) == Err(NotAnInteger(Strip(raw))) <==> toInt(number) == None)
              && (ReadItem(toInt, raw) == Err(NotPositive(Strip(raw))) <==> toInt(number).Some? && toInt(number).value <= 0)
  {
    StripOfBlank(raw);
    var item := Strip(raw);
    forall name, number | item == name + "=" + number && '=' !in name
      ensures ReadItem(toInt, raw) == Err(NotAnInteger(item)) <==> toInt(number) == None
      ensures ReadItem(toInt, raw) == Err(NotPositive(item)) <==> toInt(number).Some? && toInt(number).value <= 0
    {
      FirstEquals(name, number);
      assert item[|name| + 1..] == number;
    }
  }

  /** The items of a value are what stands between its commas. */
  lemma {:induction false} SplitIs(s: string, c: char)
    ensures forall i :: 0 <= i < |Split(s, c)| ==> c !in Split(s, c)[i]
    ensures JoinWith([c], Split(s, c)) == s
    decreases |s|
  {
    var i := Find(s, c);
    if i < |s| {
      SplitIs(s[i + 1..], c);
      JoinFirst([c], s[..i], Split(s[i + 1..], c));
      assert s == s[..i] + [c] + s[i + 1..];
    }
  }

  lemma {:induction false} JoinFirst(sep: string, first: string, rest: seq<string>)
    requires rest != []
    ensures JoinWith(sep, [first] + rest) == first + sep + JoinWith(sep, rest)
  {
    var all, n := [first] + rest, |rest|;
    assert all[..n] == [first] + rest[..n - 1] && all[n] == rest[n - 1];
    if n > 1 {
      JoinFirst(sep, first, rest[..n - 1]);
      AssocSeq(first + sep, JoinWith(sep, rest[..n - 1]) + sep, rest[n - 1]);
      AssocSeq(first + sep, JoinWith(sep, rest[..n - 1]), sep);
    }
  }

  /** All items, value after value. */
  lemma {:induction false} AllItemsAre(values: seq<string>, parts: seq<seq<string>>)
    requires |parts| == |values| && forall i :: 0 <= i < |values| ==> parts[i] == Split(values[i], ',')
    ensures AllItems(values) == Flatten(parts)
  {
    if values != [] {
      AllItemsAre(values[1..], parts[1..]);
    }
  }

  predicate Gives(toInt: string -> Option<int>, item: string, bench: string, cap: int) {
    var r := ReadItem(toInt, item);
    r.Ok? && r.value.Some? && r.value.value.0 == bench && r.value.value.1 == cap
  }

  predicate Names(toInt: string -> Option<int>, item: string, bench: string) {
    var r := ReadItem(toInt, item);
    r.Ok? && r.value.Some? && r.value.value.0 == bench
  }

  /** The entry in force for a bench: the last one given for it. */
  predicate LastAt(toInt: string -> Option<int>, items: seq<string>, bench: string, cap: int, i: int) {
    && 0 <= i < |items| && Gives(toInt, items[i], bench, cap)
    && forall j :: i < j < |items| ==> !Names(toInt, items[j], bench)
  }

  predicate AllReadable(toInt: string -> Option<int>, items: seq<string>) {
    forall i :: 0 <= i < |items| ==> ReadItem(toInt, items[i]).Ok?
  }

  /** Caps are accepted exactly when every item reads. */
  lemma {:induction false} AcceptedIffReadable(toInt: string -> Option<int>, items: seq<string>)
    ensures ReadItems(toInt, items).Ok? <==> AllReadable(toInt, items)
  {
    if items != [] {
      var init, last := items[..|items| - 1], items[|items| - 1];
      assert items == init + [last];
      AcceptedIffReadable(toInt, init);
      ReadSnoc(toInt, init, last);
      assert forall i :: 0 <= i < |init| ==> items[i] == init[i];
    }
  }

  /** Every accepted cap is at least one, so a pass can always start a trial of its bench. */
  lemma {:induction false} AcceptedCapsAreValid(toInt: string -> Option<int>, items: seq<string>, cfg: Config)
    ensures ReadItems(toInt, items) == Ok(cfg.caps) ==> cfg.Valid()
    decreases |items|
  {
    if items != [] && ReadItems(toInt, items) == Ok(cfg.caps) {
      var init, last := items[..|items| - 1], items[|items| - 1];
      assert items == init + [last];
      ReadSnoc(toInt, init, last);
      AcceptedCapsAreValid(toInt, init, cfg.(caps := ReadItems(toInt, init).value));
    }
  }

  // ---- the caps ---------------------------------------------------------------------------

  /** A bench is capped exactly as the last item naming it says. */
  lemma {:induction false} LastItemCounts(toInt: string -> Option<int>, items: seq<string>, bench: string, cap: int)
    requires ReadItems(toInt, items).Ok?
    ensures var caps := ReadItems(toInt, items).value;
      (bench in caps && caps[bench] == cap) <==> exists i :: LastAt(toInt, items, bench, cap, i)
  {
    if items != [] {
      var init, last := items[..|items| - 1], items[|items| - 1];
      assert items == init + [last];
      ReadSnoc(toInt, init, last);
      LastItemCounts(toInt, init, bench, cap);
      if Names(toInt, last, bench) {
        NamedLast(toInt, init, last, bench, cap);
      } else {
        NotNamedLast(toInt, init, last, bench, cap);
      }
    }
  }

  lemma NamedLast(toInt: string -> Option<int>, init: seq<string>, last: string, bench: string, cap: int)
    requires Names(toInt, last, bench)
    ensures (exists i :: LastAt(toInt, init + [last], bench, cap, i)) <==> Gives(toInt, last, bench, cap)
  {
    var items := init + [last];
    assert items[|init|] == last;
    if Gives(toInt, last, bench, cap) {
      assert LastAt(toInt, items, bench, cap, |init|);
    }
  }

  lemma NotNamedLast(toInt: string -> Option<int>, init: seq<string>, last: string, bench: string, cap: int)
    requires !Names(toInt, last, bench)
    ensures (exists i :: LastAt(toInt, init + [last], bench, cap, i)) <==> exists i :: LastAt(toInt, init, bench, cap, i)
  {
    var items := init + [last];
    assert items[|init|] == last;
    assert forall j :: 0 <= j < |init| ==> items[j] == init[j];
    forall i | LastAt(toInt, init, bench, cap, i) ensures LastAt(toInt, items, bench, cap, i) {
    }
    forall i | LastAt(toInt, items, bench, cap, i) ensures LastAt(toInt, init, bench, cap, i) {
    }
  }

  /** One `--bench-cap` value. */
  method ReadValue(toInt: string -> Option<int>, caps: map<string, int>, items: seq<string>)
    returns (result: Result<map<string, int>, CapError>)
    ensures result == ReadFrom(toInt, Ok(caps), items)
  {
    result := Ok(caps);
    var n := 0;
    while n < |items|
      invariant n <= |items| && result.Ok? && ReadFrom(toInt, result, items[n..]) == ReadFrom(toInt, Ok(caps), items)
    {
      var item := ReadItem(toInt, items[n]);
      assert items[n..][1..] == items[n + 1..];
      if item.Err? {
        ErrorStays(toInt, Err(item.error), items[n + 1..]);
        return Err(item.error);
      }
      if item.value.Some? {
        result := Ok(result.value[item.value.value.0 := item.value.value.1]);
      }
      n := n + 1;
    }
  }

  method ParseBenchCaps(toInt: string -> Option<int>, values: seq<string>)
    returns (result: Result<map<string, int>, CapError>)
    ensures result == ReadItems(toInt, AllItems(values))
  {
    result := Ok(map[]);
    var n := 0;
    while n < |values|
      invariant n <= |values| && result.Ok?
      invariant ReadFrom(toInt, result, AllItems(values[n..])) == ReadItems(toInt, AllItems(values))
    {
      assert values[n..][1..] == values[n + 1..];
      ReadFromConcat(toInt, result, Split(values[n], ','), AllItems(values[n + 1..]));
      result := ReadValue(toInt, result.value, Split(values[n], ','));
      if result.Err? {
        ErrorStays(toInt, result, AllItems(values[n + 1..]));
        return;
      }
      n := n + 1;
    }
  }
}
