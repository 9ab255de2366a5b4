/** The substitution of transform_assistant_content in convert_to_openclaw_compat.py:
    every tool call in a text is rewritten, and rewriting the result again changes nothing. */
module Converter {
  import opened Plans
  import opened Text
  import opened Markup
  import opened CleanText
  import opened ToolCalls
  import opened Migrations

  datatype Call = Call(name: string, body: string, len: nat)

  /** The whole tool call at the start of `s`, if there is one: an opening and the
      text up to the first closing. */
  function CallAt(s: string): (r: Option<Call>)
    ensures r.Some? ==> 0 < r.value.len <= |s|
  {
    match OpenAt(s)
    case None => None
    case Some(tag) =>
      var after := s[tag.len..];
      match FindClose(after)
      case None => None
      case Some(i) => Some(Call(tag.name, after[..i], tag.len + i + CloseAt(after[i..]).value))
  }

  /** Position of the first tool call. */
  function FindCall(s: string): (r: Option<nat>)
    ensures r.Some? ==> r.value <= |s| && CallAt(s[r.value..]).Some?
  {
    if CallAt(s).Some? then Some(0)
    else if s == [] then None
    else
      match FindCall(s[1..])
      case None => None
      case Some(i) => Some(i + 1)
  }

  /** What the substitution callback returns for one call. */
  function RewriteCall(env: Env, call: Call, original: string): string {
    match TransformArgs(env, call.name, ParseArgs(call.body))
    case Rejected(_) => original
    case Rewritten(name, args) => Rendered(name, args)
  }

  function CallError(env: Env, call: Call): seq<string> {
    match TransformArgs(env, call.name, ParseArgs(call.body))
    case Rejected(error) => [error]
    case Rewritten(_, _) => []
  }

  /** The text with every tool call, left to right, rewritten. */
  function Transform(env: Env, s: string): string
    decreases |s|
  {
    match FindCall(s)
    case None => s
    case Some(i) =>
      var call := CallAt(s[i..]).value;
      s[..i] + (RewriteCall(env, call, s[i..][..call.len]) + Transform(env, s[i..][call.len..]))
  }

  /** The errors those rewritings collect. */
  function CallErrors(env: Env, s: string): seq<string>
    decreases |s|
  {
    match FindCall(s)
    case None => []
    case Some(i) =>
      var call := CallAt(s[i..]).value;
      CallError(env, call) + CallErrors(env, s[i..][call.len..])
  }

  // ---- calls that were written ------------------------------------------------------------

  function CallText(w: string, name: string, body: string, w': string): string {
    Opening(w, name) + (body + Closing(w'))
  }

  lemma CallShape(o: string, body: string, c: string, rest: string)
    ensures (o + (body + c)) + rest == o + (body + (c + rest))
  {
  }

  lemma CallBuilt(w: string, name: string, body: string, w': string, rest: string)
    requires AllSpace(w) && IsName(name) && CloseFree(body) && AllSpace(w')
    ensures var r := CallAt(CallText(w, name, body, w') + rest);
            r.Some? && r.value.name == name && r.value.body == body && r.value.len == |CallText(w, name, body, w')|
  {
    var o, c := Opening(w, name), Closing(w');
    var after := body + (c + rest);
    CallShape(o, body, c, rest);
    OpenBuilt(w, name, after);
    Prefixed(o, after);
    FindCloseBuilt(body, w', rest);
    Prefixed(body, c + rest);
    CloseBuilt(w', rest);
  }

  lemma ThreeCuts(s: string, a: nat, i: nat, n: nat)
    requires a + i + n <= |s|
    ensures s[..a + i + n] == s[..a] + (s[a..][..i] + s[a..][i..][..n])
  {
  }

  lemma CallParts(s: string) returns (w: string, w': string)
    requires CallAt(s).Some?
    ensures AllSpace(w) && AllSpace(w') && IsName(CallAt(s).value.name) && CloseFree(CallAt(s).value.body)
    ensures s[..CallAt(s).value.len] == CallText(w, CallAt(s).value.name, CallAt(s).value.body, w')
  {
    var tag := OpenAt(s).value;
    var after := s[tag.len..];
    var i := FindClose(after).value;
    w := OpenParts(s);
    FindCloseFree(after);
    w' := CloseParts(after[i..]);
    ThreeCuts(s, tag.len, i, CloseAt(after[i..]).value);
  }

  // ---- no new calls appear ----------------------------------------------------------------

  lemma CallTextCloses(w: string, name: string, body: string, w': string, rest: string)
    requires CloseFree(body) && AllSpace(w')
    ensures FindClose(CallText(w, name, body, w') + rest).Some?
  {
    CallShape(Opening(w, name), body, Closing(w'), rest);
    FindCloseBuilt(body, w', rest);
    FindCloseAfter(Opening(w, name), body + (Closing(w') + rest));
  }

  lemma CallTextOpens(w: string, name: string, body: string, w': string, rest: string)
    ensures CALL_OPEN <= CallText(w, name, body, w') + rest
  {
    CallShape(Opening(w, name), body, Closing(w'), rest);
    var more := body + (Closing(w') + rest);
    AssocSeq(CALL_OPEN, w, FunctionTag(name));
    AssocSeq(CALL_OPEN, w + FunctionTag(name), more);
    Prefixed(CALL_OPEN, (w + FunctionTag(name)) + more);
  }

  lemma SuffixOfSum(x: string, y: string, n: nat)
    requires n <= |x|
    ensures (x + y)[n..] == x[n..] + y
  {
  }

  /** A call that begins in `x` before another `<tool_call>` also begins there when a
      complete call follows instead. */
  lemma NoNewCall(x: string, tail: string, w: string, name: string, body: string, w': string, rest: string)
    requires x != [] && CALL_OPEN <= tail && CallAt(x + tail).Some?
    requires CloseFree(body) && AllSpace(w')
    ensures CallAt(x + (CallText(w, name, body, w') + rest)).Some?
  {
    var old' := CallText(w, name, body, w') + rest;
    CallTextOpens(w, name, body, w', rest);
    OpenInside(x, tail, old');
    var n := OpenAt(x + tail).value.len;
    SuffixOfSum(x, old', n);
    CallTextCloses(w, name, body, w', rest);
    FindCloseAfter(x[n..], old');
  }

  lemma {:induction false} NoCallBefore(s: string, p: nat)
    requires FindCall(s).Some? ==> p < FindCall(s).value
    requires p <= |s|
    ensures CallAt(s[p..]).None?
  {
    if p > 0 {
      NoCallBefore(s[1..], p - 1);
      assert s[1..][p - 1..] == s[p..];
    } else {
      assert s[0..] == s;
    }
  }

  lemma SuffixOfTail(s: string, p: nat)
    requires p < |s|
    ensures s[1..][p..] == s[p + 1..]
  {
  }

  lemma {:induction false} FirstCallIs(s: string, i: nat)
    requires i <= |s| && CallAt(s[i..]).Some?
    requires forall p :: 0 <= p < i ==> CallAt(s[p..]).None?
    ensures FindCall(s).Some? && FindCall(s).value == i
  {
    assert s[0..] == s;
    if i > 0 {
      forall p | 0 <= p < i - 1 ensures CallAt(s[1..][p..]).None? {
        SuffixOfTail(s, p);
      }
      SuffixOfTail(s, i - 1);
      FirstCallIs(s[1..], i - 1);
    }
  }

  /** The first call of `g + old call + rest` stays first when it is replaced by
      another call and the text after it changes. */
  lemma FirstCallStays(s: string, i: nat, now: string, rest: string)
    requires FindCall(s).Some? && FindCall(s).value == i
    requires CALL_OPEN <= now + rest && CallAt(now + rest).Some?
    ensures FindCall(s[..i] + (now + rest)).Some?
    ensures FindCall(s[..i] + (now + rest)).value == i
  {
    var g, t := s[..i], s[..i] + (now + rest);
    var call := CallAt(s[i..]).value;
    var w, w' := CallParts(s[i..]);
    Prefixed(g, now + rest);
    forall p | 0 <= p < i ensures CallAt(t[p..]).None? {
      SuffixOfSum(g, now + rest, p);
      if CallAt(t[p..]).Some? {
        NoNewCall(g[p..], now + rest, w, call.name, call.body, w', s[i..][call.len..]);
        FromFirstCall(s, i, p);
        NoCallBefore(s, p);
      }
    }
    FirstCallIs(t, i);
  }

  lemma FromFirstCall(s: string, i: nat, p: nat)
    requires p <= i <= |s| && CallAt(s[i..]).Some?
    ensures var len := CallAt(s[i..]).value.len;
            s[p..] == s[..i][p..] + (s[i..][..len] + s[i..][len..])
  {
    CutAt(s, i);
    SuffixOfSum(s[..i], s[i..], p);
    CutAt(s[i..], CallAt(s[i..]).value.len);
  }

  lemma CutAt(s: string, i: nat)
    requires i <= |s|
    ensures s == s[..i] + s[i..]
  {
  }

  // ---- the fixpoint -----------------------------------------------------------------------

  /** What is put in place of a call is again a call, and rewriting it keeps it. */
  lemma RewrittenCallIsKept(env: Env, s: string, rest: string)
    requires CallAt(s).Some?
    ensures var call := CallAt(s).value;
            var now := RewriteCall(env, call, s[..call.len]);
            && CALL_OPEN <= now + rest
            && CallAt(now + rest).Some?
            && CallAt(now + rest).value.len == |now|
            && RewriteCall(env, CallAt(now + rest).value, now) == now
            && CallError(env, CallAt(now + rest).value) == CallError(env, call)
  {
    var call := CallAt(s).value;
    var w, w' := CallParts(s);
    ParsedIsPrintable(call.body);
    var r := TransformArgs(env, call.name, ParseArgs(call.body));
    if r.Rejected? {
      CallBuilt(w, call.name, call.body, w', rest);
      CallTextOpens(w, call.name, call.body, w', rest);
    } else {
      TransformIsStable(env, call.name, ParseArgs(call.body));
      BodyIsCloseFree(r.args);
      ParseRendered(r.args);
      RenderedIsCall(r.name, r.args);
      CallBuilt("\n", r.name, Body(r.args), "\n", rest);
      CallTextOpens("\n", r.name, Body(r.args), "\n", rest);
    }
  }

  lemma RenderedIsCall(name: string, args: Args)
    ensures Rendered(name, args) == CallText("\n", name, Body(args), "\n")
  {
    AssocSeq(Opening("\n", name), Body(args), Closing("\n"));
  }

  lemma TransformStep(env: Env, s: string, g: string, now: string, rest: string)
    requires s == g + (now + rest)
    requires FindCall(s).Some? && FindCall(s).value == |g|
    requires CallAt(now + rest).Some? && CallAt(now + rest).value.len == |now|
    ensures Transform(env, s) == g + (RewriteCall(env, CallAt(now + rest).value, now) + Transform(env, rest))
    ensures CallErrors(env, s) == CallError(env, CallAt(now + rest).value) + CallErrors(env, rest)
  {
    Prefixed(g, now + rest);
    Prefixed(now, rest);
  }

  /** Converting twice is converting once, for every text, errors included. */
  lemma {:induction false} TransformIsIdempotent(env: Env, s: string)
    ensures Transform(env, Transform(env, s)) == Transform(env, s)
    ensures CallErrors(env, Transform(env, s)) == CallErrors(env, s)
    decreases |s|
  {
    if FindCall(s).Some? {
      var i := FindCall(s).value;
      var at := s[i..];
      var call := CallAt(at).value;
      var now := RewriteCall(env, call, at[..call.len]);
      var rest := Transform(env, at[call.len..]);
      TransformIsIdempotent(env, at[call.len..]);
      RewrittenCallIsKept(env, at, rest);
      FirstCallStays(s, i, now, rest);
      TransformStep(env, s[..i] + (now + rest), s[..i], now, rest);
    }
  }

  // ---- the sweep over function tags -------------------------------------------------------

  /** FUNCTION_TAG_RE.findall */
  function TagNames(s: string): seq<string>
    decreases |s|
  {
    if s == [] then []
    else
      match FunctionTagAt(s)
      case Some(tag) => [tag.name] + TagNames(s[tag.len..])
      case None => TagNames(s[1..])
  }

  function TagErrors(allowed: seq<string>, names: seq<string>): seq<string> {
    if names == [] then []
    else (if names[0] in allowed then [] else ["non_profile_tool:" + names[0]]) + TagErrors(allowed, names[1..])
  }

  lemma TagHasOneLt(s: string, q: nat)
    requires FunctionTagAt(s).Some? && 0 < q < FunctionTagAt(s).value.len
    ensures s[q] != '<'
  {
    var tag := FunctionTagAt(s).value;
    FunctionTagParts(s);
    assert s[q] == s[..tag.len][q];
    FunctionTagChars(tag.name, q);
  }

  lemma FunctionTagStart(s: string)
    requires FunctionTagAt(s).Some?
    ensures s != [] && s[0] == '<' && FunctionTagAt(s).value.len > 0
  {
  }

  lemma NoTagInside(s: string, q: nat)
    requires 0 < q <= |s| && FunctionTagAt(s).Some? && FunctionTagAt(s[q..]).Some?
    ensures FunctionTagAt(s).value.len <= q
  {
    FunctionTagStart(s);
    FunctionTagStart(s[q..]);
    if q < FunctionTagAt(s).value.len {
      TagHasOneLt(s, q);
      assert false;
    }
  }

  lemma {:induction false} TagIsSwept(s: string, q: nat)
    requires q <= |s| && FunctionTagAt(s[q..]).Some?
    ensures FunctionTagAt(s[q..]).value.name in TagNames(s)
    decreases |s|
  {
    FunctionTagStart(s[q..]);
    assert s[0..] == s;
    if q > 0 {
      var n := 1;
      if FunctionTagAt(s).Some? {
        n := FunctionTagAt(s).value.len;
        NoTagInside(s, q);
      }
      assert s[n..][q - n..] == s[q..];
      TagIsSwept(s[n..], q - n);
    }
  }

  lemma {:induction false} NoTagErrors(allowed: seq<string>, names: seq<string>)
    ensures TagErrors(allowed, names) == [] <==> forall n :: n in names ==> n in allowed
  {
    if names != [] {
      NoTagErrors(allowed, names[1..]);
      assert names == [names[0]] + names[1..];
    }
  }

  lemma CallNameIsSwept(text: string, p: nat)
    requires p <= |text| && CallAt(text[p..]).Some?
    ensures CallAt(text[p..]).value.name in TagNames(text)
  {
    var n := TagOfCall(text[p..]);
    TagStandsAt(text, p, n, CallAt(text[p..]).value.name);
  }

  lemma TagStandsAt(text: string, p: nat, n: nat, name: string)
    requires p + n <= |text| && FunctionTagAt(text[p..][n..]).Some?
    requires FunctionTagAt(text[p..][n..]).value.name == name
    ensures name in TagNames(text)
  {
    SuffixOfSuffix(text, p, n);
    NameIsSwept(text, p + n, text[p..][n..], name);
  }

  lemma NameIsSwept(text: string, q: nat, tag: string, name: string)
    requires q <= |text| && text[q..] == tag && FunctionTagAt(tag).Some? && FunctionTagAt(tag).value.name == name
    ensures name in TagNames(text)
  {
    TagIsSwept(text, q);
  }

  lemma SuffixOfSuffix(s: string, p: nat, n: nat)
    requires p + n <= |s|
    ensures s[p..][n..] == s[p + n..]
  {
  }

  lemma TagOfCall(s: string) returns (n: nat)
    requires CallAt(s).Some?
    ensures n <= |s| && FunctionTagAt(s[n..]).Some? && FunctionTagAt(s[n..]).value.name == CallAt(s).value.name
  {
    n := |CALL_OPEN| + Spaces(s[|CALL_OPEN|..]);
  }

  /** `TOOL_CALL_XML_RE.sub(repl, content)`, the callback filling the error list. */
  method SubstituteCalls(env: Env, content: string) returns (text: string, errors: seq<string>)
    ensures text == Transform(env, content) && errors == CallErrors(env, content)
  {
    text, errors := [], [];
    var left := content;
    while FindCall(left).Some?
      invariant text + Transform(env, left) == Transform(env, content)
      invariant errors + CallErrors(env, left) == CallErrors(env, content)
      decreases |left|
    {
      var i := FindCall(left).value;
      var at := left[i..];
      var call := CallAt(at).value;
      var now, failed := Callback(env, call, at[..call.len]);
      FirstCallUnfolds(env, left);
      Regroup(text, left[..i], now, Transform(env, at[call.len..]));
      AssocSeq(errors, failed, CallErrors(env, at[call.len..]));
      text := text + left[..i] + now;
      errors := errors + failed;
      left := at[call.len..];
    }
    text := text + left;
  }

  lemma FirstCallUnfolds(env: Env, s: string)
    requires FindCall(s).Some?
    ensures var i := FindCall(s).value;
            var call := CallAt(s[i..]).value;
            && Transform(env, s) == s[..i] + (RewriteCall(env, call, s[i..][..call.len]) + Transform(env, s[i..][call.len..]))
            && CallErrors(env, s) == CallError(env, call) + CallErrors(env, s[i..][call.len..])
  {
  }

  /** `repl` */
  method Callback(env: Env, call: Call, original: string) returns (now: string, errors: seq<string>)
    ensures now == RewriteCall(env, call, original) && errors == CallError(env, call)
  {
    match TransformArgs(env, call.name, ParseArgs(call.body)) {
      case Rejected(error) =>
        now, errors := original, [error];
      case Rewritten(name, args) =>
        now := RenderXmlToolCall(name, args);
        errors := [];
    }
  }

  /** The loop over `FUNCTION_TAG_RE.findall(transformed)`. */
  method SweepTags(allowed: seq<string>, names: seq<string>) returns (errors: seq<string>)
    ensures errors == TagErrors(allowed, names)
  {
    errors := [];
    for n := 0 to |names|
      invariant errors + TagErrors(allowed, names[n..]) == TagErrors(allowed, names)
    {
      assert names[n..][1..] == names[n + 1..];
      if names[n] !in allowed {
        errors := errors + ["non_profile_tool:" + names[n]];
      }
    }
  }

  lemma Regroup(a: string, b: string, c: string, d: string)
    ensures a + (b + (c + d)) == (a + b + c) + d
  {
  }
}
