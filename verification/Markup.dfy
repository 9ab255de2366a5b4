/** The tool-call markup that convert_to_openclaw_compat.py scans for: opening and
    closing tags, and texts that are free of the closing ones. */
module Markup {
  import opened Plans
  import opened Text

  const CALL_OPEN := "<tool_call>"
  const CALL_CLOSE := "</tool_call>"
  const FUNCTION_OPEN := "<function="
  const FUNCTION_CLOSE := "</function>"
  const PARAM_OPEN := "<parameter="
  const PARAM_CLOSE := "</parameter>"

  /** `<tool_call>\s*<function=name>` and `</function>\s*</tool_call>`. */
  function FunctionTag(name: string): string {
    FUNCTION_OPEN + name + ">"
  }

  function Opening(w: string, name: string): string {
    CALL_OPEN + w + FunctionTag(name)
  }

  function Closing(w: string): string {
    FUNCTION_CLOSE + w + CALL_CLOSE
  }

  datatype Tag = Tag(name: string, len: nat)

  /** `<function=name>` at the start of `s`, if it is there. */
  function FunctionTagAt(s: string): (r: Option<Tag>)
    ensures r.Some? ==> 0 < r.value.len <= |s|
  {
    if !(FUNCTION_OPEN <= s) then None
    else
      var rest := s[|FUNCTION_OPEN|..];
      var n := NameLen(rest);
      if n == 0 || !IsNameStart(rest[0]) || n == |rest| || rest[n] != '>' then None
      else Some(Tag(rest[..n], |FUNCTION_OPEN| + n + 1))
  }

  /** The opening at the start of `s`, if there is one. */
  function OpenAt(s: string): (r: Option<Tag>)
    ensures r.Some? ==> r.value.len <= |s|
  {
    if !(CALL_OPEN <= s) then None
    else
      var w := Spaces(s[|CALL_OPEN|..]);
      match FunctionTagAt(s[|CALL_OPEN| + w..])
      case None => None
      case Some(tag) => Some(Tag(tag.name, |CALL_OPEN| + w + tag.len))
  }

  /** Length of the closing at the start of `s`, if there is one. */
  function CloseAt(s: string): (r: Option<nat>)
    ensures r.Some? ==> r.value <= |s|
  {
    if !(FUNCTION_CLOSE <= s) then None
    else
      var w := Spaces(s[|FUNCTION_CLOSE|..]);
      if CALL_CLOSE <= s[|FUNCTION_CLOSE| + w..] then Some(|FUNCTION_CLOSE| + w + |CALL_CLOSE|) else None
  }

  lemma Prefixed(p: string, r: string)
    ensures p <= p + r && (p + r)[|p|..] == r && (p + r)[..|p|] == p
  {
  }

  lemma PrefixSplits(p: string, s: string)
    requires p <= s
    ensures s == p + s[|p|..]
  {
  }

  /** After `p`, the white space read is `w` and what is left is `tail`. */
  lemma SpacedOut(p: string, w: string, tail: string)
    requires AllSpace(w) && (tail == [] || !IsSpace(tail[0]))
    ensures p <= p + w + tail
    ensures Spaces((p + w + tail)[|p|..]) == |w|
    ensures (p + w + tail)[|p| + |w|..] == tail
  {
    AssocSeq(p, w, tail);
    Prefixed(p, w + tail);
    Prefixed(p + w, tail);
    SpacesOf(w, tail);
  }

  lemma FunctionTagBuilt(name: string, r: string)
    requires IsName(name)
    ensures FunctionTagAt(FunctionTag(name) + r) == Some(Tag(name, |FunctionTag(name)|))
  {
    var rest := name + (">" + r);
    AssocSeq(FUNCTION_OPEN + name, ">", r);
    AssocSeq(FUNCTION_OPEN, name, ">" + r);
    Prefixed(FUNCTION_OPEN, rest);
    NameLenOf(name, ">" + r);
    Prefixed(name, ">" + r);
    assert rest[..|name|] == name;
  }

  lemma FunctionTagParts(s: string)
    requires FunctionTagAt(s).Some?
    ensures var tag := FunctionTagAt(s).value;
            IsName(tag.name) && s[..tag.len] == FunctionTag(tag.name)
  {
    var tag := FunctionTagAt(s).value;
    var rest := s[|FUNCTION_OPEN|..];
    PrefixSplits(FUNCTION_OPEN, s);
    TakeSnoc(rest, |tag.name|);
    assert s[..tag.len] == FUNCTION_OPEN + rest[..|tag.name| + 1];
  }

  lemma OpenBuilt(w: string, name: string, r: string)
    requires AllSpace(w) && IsName(name)
    ensures OpenAt(Opening(w, name) + r) == Some(Tag(name, |Opening(w, name)|))
  {
    var tag := FunctionTag(name);
    FunctionTagBuilt(name, r);
    AssocSeq(CALL_OPEN + w, tag, r);
    OpenOfTag(w, name, tag, tag + r);
  }

  lemma OpenOfTag(w: string, name: string, tag: string, tail: string)
    requires AllSpace(w)
    requires FunctionTagAt(tail).Some? && FunctionTagAt(tail).value.name == name && FunctionTagAt(tail).value.len == |tag|
    ensures var r := OpenAt(CALL_OPEN + w + tail);
            r.Some? && r.value.name == name && r.value.len == |CALL_OPEN + w + tag|
  {
    OpenSpaced(w, tail);
  }

  lemma OpenSpaced(w: string, tail: string)
    requires AllSpace(w) && FunctionTagAt(tail).Some?
    ensures var tag := FunctionTagAt(tail).value;
            var open := OpenAt(CALL_OPEN + w + tail);
            open.Some? && open.value.name == tag.name && open.value.len == |CALL_OPEN| + |w| + tag.len
  {
    assert tail[0] == FUNCTION_OPEN[0];
    SpacedOut(CALL_OPEN, w, tail);
    OpenFrom(CALL_OPEN + w + tail, |w|, tail);
  }

  lemma OpenFrom(s: string, n: nat, rest: string)
    requires CALL_OPEN <= s && Spaces(s[|CALL_OPEN|..]) == n && s[|CALL_OPEN| + n..] == rest
    requires FunctionTagAt(rest).Some?
    ensures var tag := FunctionTagAt(rest).value;
            OpenAt(s).Some? && OpenAt(s).value.name == tag.name && OpenAt(s).value.len == |CALL_OPEN| + n + tag.len
  {
  }

  /** An opening that was found is one that was written. */
  lemma OpenParts(s: string) returns (w: string)
    requires OpenAt(s).Some?
    ensures AllSpace(w) && IsName(OpenAt(s).value.name)
    ensures s[..OpenAt(s).value.len] == Opening(w, OpenAt(s).value.name)
  {
    var n := Spaces(s[|CALL_OPEN|..]);
    w := s[|CALL_OPEN|..][..n];
    var rest := s[|CALL_OPEN| + n..];
    PrefixSplits(CALL_OPEN, s);
    FunctionTagParts(rest);
    TwoCuts(s, |CALL_OPEN|, n, FunctionTagAt(rest).value.len);
  }

  lemma TwoCuts(s: string, a: nat, n: nat, m: nat)
    requires a + n + m <= |s|
    ensures s[..a + n + m] == s[..a] + s[a..][..n] + s[a + n..][..m]
  {
  }

  lemma CloseBuilt(w: string, r: string)
    requires AllSpace(w)
    ensures CloseAt(Closing(w) + r) == Some(|Closing(w)|)
  {
    AssocSeq(FUNCTION_CLOSE + w, CALL_CLOSE, r);
    SpacedOut(FUNCTION_CLOSE, w, CALL_CLOSE + r);
    Prefixed(CALL_CLOSE, r);
  }

  lemma CloseParts(s: string) returns (w: string)
    requires CloseAt(s).Some?
    ensures AllSpace(w) && s[..CloseAt(s).value] == Closing(w)
  {
    var n := Spaces(s[|FUNCTION_CLOSE|..]);
    w := s[|FUNCTION_CLOSE|..][..n];
    PrefixSplits(FUNCTION_CLOSE, s);
    TwoCuts(s, |FUNCTION_CLOSE|, n, |CALL_CLOSE|);
  }

  // ---- what a tag can cross ---------------------------------------------------------------

  /** A text `t` that begins in `x` and ends in `tail` shows the tail's characters. */
  lemma CrossingText(t: string, x: string, tail: string)
    requires |x| < |t| <= |x| + |tail| && (x + tail)[..|t|] == t
    ensures t[|x|..] == tail[..|t| - |x|]
    ensures forall i :: |x| <= i < |t| ==> t[i] == tail[i - |x|]
  {
    assert (x + tail)[..|t|][|x|..] == tail[..|t| - |x|];
  }

  lemma InsideText(t: string, x: string, tail: string)
    requires |t| <= |x| && (x + tail)[..|t|] == t
    ensures x == t + x[|t|..]
    ensures forall y :: x + y == t + (x[|t|..] + y)
  {
    assert (x + tail)[..|t|] == x[..|t|];
  }

  lemma ClosingChars(w: string, i: nat)
    requires i < |Closing(w)|
    ensures Closing(w)[i] == if i < |FUNCTION_CLOSE| then FUNCTION_CLOSE[i]
                             else if i < |FUNCTION_CLOSE| + |w| then w[i - |FUNCTION_CLOSE|]
                             else CALL_CLOSE[i - |FUNCTION_CLOSE| - |w|]
  {
  }

  lemma LtInClosing(w: string, i: nat)
    requires AllSpace(w) && 0 < i < |Closing(w)| && Closing(w)[i] == '<'
    ensures Closing(w)[i..] == CALL_CLOSE
  {
    ClosingChars(w, i);
    assert i == |FUNCTION_CLOSE| + |w|;
  }

  /** A closing that begins before a tail starting with `<` lies wholly before it,
      unless the tail starts with the second half of a closing. */
  lemma CloseInside(x: string, tail: string)
    requires x != [] && tail != [] && tail[0] == '<' && !(CALL_CLOSE <= tail)
    requires CloseAt(x + tail).Some?
    ensures CloseAt(x).Some?
  {
    var len := CloseAt(x + tail).value;
    var w := CloseParts(x + tail);
    if len <= |x| {
      InsideText(Closing(w), x, tail);
      CloseBuilt(w, x[len..]);
    } else {
      CrossingText(Closing(w), x, tail);
      LtInClosing(w, |x|);
      assert false;
    }
  }

  /** A found closing is found again whatever follows it. */
  lemma CloseExtends(s: string, r: string)
    requires CloseAt(s).Some?
    ensures CloseAt(s + r) == CloseAt(s)
  {
    var w := CloseParts(s);
    assert s + [] == s;
    InsideText(Closing(w), s, []);
    CloseBuilt(w, s[|Closing(w)|..] + r);
  }

  lemma OpeningChars(w: string, name: string, i: nat)
    requires i < |Opening(w, name)|
    ensures Opening(w, name)[i] == var at := |CALL_OPEN| + |w|;
                                   if i < |CALL_OPEN| then CALL_OPEN[i]
                                   else if i < at then w[i - |CALL_OPEN|]
                                   else FunctionTag(name)[i - at]
  {
  }

  lemma FunctionTagChars(name: string, i: nat)
    requires i < |FunctionTag(name)|
    ensures FunctionTag(name)[i] == if i < |FUNCTION_OPEN| then FUNCTION_OPEN[i]
                                    else if i < |FUNCTION_OPEN| + |name| then name[i - |FUNCTION_OPEN|]
                                    else '>'
  {
  }

  lemma LtInOpening(w: string, name: string, i: nat)
    requires AllSpace(w) && IsName(name) && 0 < i < |Opening(w, name)| && Opening(w, name)[i] == '<'
    ensures i + 1 < |Opening(w, name)| && Opening(w, name)[i + 1] == 'f'
  {
    var at := |CALL_OPEN| + |w|;
    OpeningChars(w, name, i);
    if i >= at {
      FunctionTagChars(name, i - at);
    }
    assert i == at;
    OpeningChars(w, name, i + 1);
    FunctionTagChars(name, 1);
  }

  lemma CallOpenStart(s: string)
    requires CALL_OPEN <= s
    ensures s[0] == '<' && s[1] == 't'
  {
  }

  /** An opening that begins before another `<tool_call>` lies wholly before it. */
  lemma OpenInside(x: string, tail: string, tail': string)
    requires x != [] && CALL_OPEN <= tail && CALL_OPEN <= tail'
    requires OpenAt(x + tail).Some?
    ensures OpenAt(x + tail).value.len <= |x|
    ensures OpenAt(x + tail') == OpenAt(x + tail)
  {
    var tag := OpenAt(x + tail).value;
    var w := OpenParts(x + tail);
    var o := Opening(w, tag.name);
    CallOpenStart(tail);
    if tag.len > |x| {
      CrossingText(o, x, tail);
      assert o[|x|] == '<';
      LtInOpening(w, tag.name, |x|);
      assert false;
    }
    InsideText(o, x, tail);
    OpenBuilt(w, tag.name, x[tag.len..] + tail');
  }
}
