/** What the scanner for tool calls and the parser of their parameters find, said about the
    characters of the text alone. */
module CallTexts {
  import opened Plans
  import opened Text
  import opened Markup
  import opened CleanText
  import opened ToolCalls
  import opened Converter

  // ---- calls ------------------------------------------------------------------------------

  predicate EndStarts(s: string, p: nat, v: string) {
    p <= |s| && AllSpace(v) && "</function>" + v + "</tool_call>" <= s[p..]
  }

  /** No end of a call begins anywhere in the text. */
  ghost predicate HasNoEnd(s: string) {
    forall p, v :: !EndStarts(s, p, v)
  }

  predicate WrittenWith(t: string, name: string, body: string, w: string, v: string) {
    && AllSpace(w) && AllSpace(v)
    && t == "<tool_call>" + w + ("<function=" + name + ">") + (body + ("</function>" + v + "</tool_call>"))
  }

  /** `t` is a whole call of a tool, with what stands between its tags. */
  ghost predicate CallIs(t: string, name: string, body: string) {
    IsName(name) && HasNoEnd(body) && exists w, v :: WrittenWith(t, name, body, w, v)
  }

  lemma {:induction false} NoEndIff(s: string)
    ensures CloseFree(s) <==> HasNoEnd(s)
  {
    if CloseFree(s) {
      forall p: nat, v: string ensures !EndStarts(s, p, v) {
        if EndStarts(s, p, v) {
          CloseFreeSuffix(s, p);
          EndIsClosing(s[p..], v);
          assert false;
        }
      }
    }
    if HasNoEnd(s) {
      NoEndIsFree(s);
    }
  }

  lemma EndIsClosing(t: string, v: string)
    requires AllSpace(v) && "</function>" + v + "</tool_call>" <= t
    ensures t != [] && CloseAt(t).Some?
  {
    assert "</function>" + v + "</tool_call>" == Closing(v);
    PrefixSplits(Closing(v), t);
    CloseBuilt(v, t[|Closing(v)|..]);
  }

  lemma ClosingIsEnd(s: string)
    requires CloseAt(s).Some?
    ensures !HasNoEnd(s)
  {
    var v := CloseParts(s);
    assert s[0..] == s && "</function>" + v + "</tool_call>" == Closing(v);
    assert EndStarts(s, 0, v);
  }

  lemma {:induction false} NoEndIsFree(s: string)
    requires HasNoEnd(s)
    ensures CloseFree(s)
  {
    if s != [] {
      if CloseAt(s).Some? {
        ClosingIsEnd(s);
        assert false;
      }
      forall p: nat, v: string ensures !EndStarts(s[1..], p, v) {
        if p < |s| {
          assert s[1..][p..] == s[p + 1..];
        }
        assert !EndStarts(s, p + 1, v);
      }
      NoEndIsFree(s[1..]);
    }
  }

  lemma WrittenIs(t: string, name: string, body: string, w: string, v: string)
    ensures WrittenWith(t, name, body, w, v) <==> AllSpace(w) && AllSpace(v) && t == CallText(w, name, body, v)
  {
    assert "</function>" + v + "</tool_call>" == Closing(v);
    assert "<tool_call>" + w + ("<function=" + name + ">") == Opening(w, name);
  }

  /** The call the scanner finds at the start of a text is one that is written there. */
  lemma FoundIsCall(s: string)
    requires CallAt(s).Some?
    ensures var call := CallAt(s).value; CallIs(s[..call.len], call.name, call.body)
  {
    var call := CallAt(s).value;
    var w, v := CallParts(s);
    WrittenIs(s[..call.len], call.name, call.body, w, v);
    NoEndIff(call.body);
  }

  /** A call that is written at the start of a text is found there, with its name and body. */
  lemma CallIsFound(t: string, name: string, body: string, rest: string)
    requires CallIs(t, name, body)
    ensures CallAt(t + rest) == Some(Call(name, body, |t|))
  {
    var w, v :| WrittenWith(t, name, body, w, v);
    WrittenIs(t, name, body, w, v);
    NoEndIff(body);
    CallBuilt(w, name, body, v, rest);
  }

  ghost predicate CallStarts(s: string, n: nat, name: string, body: string) {
    n <= |s| && CallIs(s[..n], name, body)
  }

  /** A whole call stands at the start of the text. */
  ghost predicate BeginsCall(s: string) {
    exists n: nat, name, body :: CallStarts(s, n, name, body)
  }

  lemma WrittenFirst(s: string, t: string, name: string, body: string, rest: string)
    requires s == t + rest && CallIs(t, name, body)
    ensures CallAt(s).Some?
  {
    CallIsFound(t, name, body, rest);
  }

  lemma StartedIsFound(s: string, n: nat, name: string, body: string)
    requires CallStarts(s, n, name, body)
    ensures CallAt(s).Some?
  {
    CutAt(s, n);
    WrittenFirst(s, s[..n], name, body, s[n..]);
  }

  lemma CallAtIff(s: string)
    ensures CallAt(s).Some? <==> BeginsCall(s)
  {
    if CallAt(s).Some? {
      FoundIsCall(s);
      assert CallStarts(s, CallAt(s).value.len, CallAt(s).value.name, CallAt(s).value.body);
    } else if BeginsCall(s) {
      var n: nat, name, body :| CallStarts(s, n, name, body);
      StartedIsFound(s, n, name, body);
      assert false;
    }
  }

  ghost predicate CallBeginsAt(s: string, p: nat) { p <= |s| && BeginsCall(s[p..]) }

  /** No call begins before position `n`. */
  ghost predicate NoCallUpTo(s: string, n: nat) {
    forall p: nat :: p < n ==> !CallBeginsAt(s, p)
  }

  lemma NoCallInTail(s: string, n: nat)
    requires n < |s| && NoCallUpTo(s, n + 1)
    ensures CallAt(s).None? && NoCallUpTo(s[1..], n)
  {
    assert s[0..] == s && !CallBeginsAt(s, 0);
    CallAtIff(s);
    forall p: nat | p < n ensures !CallBeginsAt(s[1..], p) {
      SuffixOfTail(s, p);
      assert !CallBeginsAt(s, p + 1);
    }
  }

  // ---- parameters -------------------------------------------------------------------------

  predicate TagEndsAt(s: string, p: nat) {
    p <= |s| && "</parameter>" <= s[p..]
  }

  /** `</parameter>` begins nowhere in the text. */
  predicate HasNoTagEnd(s: string) {
    forall p: nat :: p <= |s| ==> !TagEndsAt(s, p)
  }

  /** `t` is a whole parameter, with what stands between its tags. */
  predicate ParamIs(t: string, key: string, inner: string) {
    IsName(key) && HasNoTagEnd(inner) && t == "<parameter=" + key + ">" + (inner + "</parameter>")
  }

  lemma {:induction false} NoTagEndIff(s: string)
    ensures EndFree(s) <==> HasNoTagEnd(s)
  {
    if s == [] {
      assert !(PARAM_CLOSE <= s);
      assert s[0..] == s;
      forall p: nat | p <= |s| ensures !TagEndsAt(s, p) {}
    } else {
      NoTagEndIff(s[1..]);
      assert s[0..] == s;
      if EndFree(s) {
        forall p: nat | p <= |s| ensures !TagEndsAt(s, p) {
          if p > 0 {
            assert s[1..][p - 1..] == s[p..];
            assert !TagEndsAt(s[1..], p - 1);
          }
        }
      }
      if HasNoTagEnd(s) {
        assert !TagEndsAt(s, 0);
        forall p: nat | p <= |s[1..]| ensures !TagEndsAt(s[1..], p) {
          assert s[1..][p..] == s[p + 1..];
          assert !TagEndsAt(s, p + 1);
        }
      }
    }
  }

  lemma ParamTagIs(s: string)
    requires ParamTagAt(s).Some?
    ensures var tag := ParamTagAt(s).value; s == "<parameter=" + tag.name + ">" + s[tag.len..]
  {
    var tag := ParamTagAt(s).value;
    var rest := s[|PARAM_OPEN|..];
    PrefixSplits(PARAM_OPEN, s);
    SplitAt(rest, |tag.name|);
    assert s[tag.len..] == rest[|tag.name| + 1..];
    assert PARAM_OPEN + (tag.name + [rest[|tag.name|]] + s[tag.len..]) == PARAM_OPEN + tag.name + ">" + s[tag.len..];
  }

  /** The parameter found at the start of a text is one that is written there; its value is
      the text between the tags without the white space around it. */
  lemma FoundIsParam(s: string) returns (inner: string)
    requires ParamAt(s).Some?
    ensures var p := ParamAt(s).value; ParamIs(s[..p.len], p.key, inner) && p.value == Strip(inner)
  {
    var tag := ParamTagAt(s).value;
    var after := s[tag.len..];
    var e := FindEnd(after).value;
    inner := after[..e];
    ParamTagIs(s);
    FindEndFree(after);
    NoTagEndIff(inner);
    EndCut(after, e);
    FrontCut("<parameter=" + tag.name + ">", after, e + |PARAM_CLOSE|);
  }

  lemma EndCut(after: string, e: nat)
    requires e + |PARAM_CLOSE| <= |after| && PARAM_CLOSE <= after[e..]
    ensures after[..e + |PARAM_CLOSE|] == after[..e] + "</parameter>"
  {
    assert after[e..][..|PARAM_CLOSE|] == PARAM_CLOSE;
  }

  lemma FrontCut(front: string, after: string, n: nat)
    requires n <= |after|
    ensures (front + after)[..|front| + n] == front + after[..n]
  {
  }

  lemma ParamIsFound(t: string, key: string, inner: string, rest: string)
    requires ParamIs(t, key, inner)
    ensures var r := ParamAt(t + rest);
      r.Some? && r.value.key == key && r.value.value == Strip(inner) && r.value.len == |t|
  {
    NoTagEndIff(inner);
    TextOfParam(ParamTag(key), inner, PARAM_CLOSE, rest);
    ParamAfterTag(key, inner, rest);
  }

  lemma ParamAfterTag(key: string, inner: string, rest: string)
    requires IsName(key) && EndFree(inner)
    ensures var r := ParamAt(ParamTag(key) + (inner + (PARAM_CLOSE + rest)));
      && r.Some? && r.value.key == key && r.value.value == Strip(inner)
      && r.value.len == |ParamTag(key)| + |inner| + |PARAM_CLOSE|
  {
    var after := inner + (PARAM_CLOSE + rest);
    ParamTagBuilt(key, after);
    Prefixed(ParamTag(key), after);
    FindEndBuilt(inner, rest);
    Prefixed(inner, PARAM_CLOSE + rest);
    ParamFrom(ParamTag(key) + after, |ParamTag(key)|, |inner|);
  }

  lemma TextOfParam(tag: string, inner: string, end: string, rest: string)
    ensures (tag + (inner + end)) + rest == tag + (inner + (end + rest))
  {
  }

  predicate ParamStarts(s: string, n: nat, key: string, inner: string) {
    n <= |s| && ParamIs(s[..n], key, inner)
  }

  ghost predicate BeginsParam(s: string) {
    exists n: nat, key, inner :: ParamStarts(s, n, key, inner)
  }

  lemma ParamFirst(s: string, t: string, key: string, inner: string, rest: string)
    requires s == t + rest && ParamIs(t, key, inner)
    ensures ParamAt(s).Some?
  {
    ParamIsFound(t, key, inner, rest);
  }

  lemma StartedParamIsFound(s: string, n: nat, key: string, inner: string)
    requires ParamStarts(s, n, key, inner)
    ensures ParamAt(s).Some?
  {
    CutAt(s, n);
    ParamFirst(s, s[..n], key, inner, s[n..]);
  }

  lemma ParamAtIff(s: string)
    ensures ParamAt(s).Some? <==> BeginsParam(s)
  {
    if ParamAt(s).Some? {
      var inner := FoundIsParam(s);
      assert ParamStarts(s, ParamAt(s).value.len, ParamAt(s).value.key, inner);
    } else if BeginsParam(s) {
      var n: nat, key, inner :| ParamStarts(s, n, key, inner);
      StartedParamIsFound(s, n, key, inner);
      assert false;
    }
  }

  ghost predicate ParamBeginsAt(s: string, p: nat) { p <= |s| && BeginsParam(s[p..]) }

  /** No parameter begins before position `n`. */
  ghost predicate NoParamUpTo(s: string, n: nat) {
    forall p: nat :: p < n ==> !ParamBeginsAt(s, p)
  }

  lemma NoParamInTail(s: string, n: nat)
    requires n < |s| && NoParamUpTo(s, n + 1)
    ensures ParamAt(s).None? && NoParamUpTo(s[1..], n)
  {
    assert s[0..] == s && !ParamBeginsAt(s, 0);
    ParamAtIff(s);
    forall p: nat | p < n ensures !ParamBeginsAt(s[1..], p) {
      SuffixOfTail(s, p);
      assert !ParamBeginsAt(s, p + 1);
    }
  }
}
