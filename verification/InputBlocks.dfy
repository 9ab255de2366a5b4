/** When the JSON blocks of a converted text are those of the text it was converted from,
    so that what an accepted text may name can be read off the input. */
module InputBlocks {
  import opened Plans
  import opened Text
  import opened Markup
  import opened Migrations
  import opened Converter
  import opened AssistantContent

  // ---- texts and calls side by side -------------------------------------------------------

  /** No block is begun in `g` and left open. */
  predicate Tidy(g: string)
    decreases |g|
  {
    g == []
    || match BlockAt(g)
       case Some(len) => Tidy(g[len..])
       case None => !(CALL_OPEN <= g) && Tidy(g[1..])
  }

  /** The calls of a text and its JSON blocks do not overlap: the text before each call is
      tidy, and each call ends at its first `</tool_call>`. */
  predicate Separate(s: string)
    decreases |s|
  {
    match FindCall(s)
    case None => true
    case Some(i) =>
      var len := CallAt(s[i..]).value.len;
      Tidy(s[..i]) && IsBlock(s[i..][..len]) && Separate(s[i..][len..])
  }

  /** What is put in place of each call ends at its first `</tool_call>`, too. */
  predicate RewrittenSeparate(env: Env, s: string)
    decreases |s|
  {
    match FindCall(s)
    case None => true
    case Some(i) =>
      var call := CallAt(s[i..]).value;
      IsBlock(RewriteCall(env, call, s[i..][..call.len])) && RewrittenSeparate(env, s[i..][call.len..])
  }

  lemma EndTagExtends(a: string, x: string)
    requires FindEndTag(a).Some?
    ensures FindEndTag(a + x).Some? && FindEndTag(a + x).value == FindEndTag(a).value
  {
    var i := FindEndTag(a).value;
    Prefixed(a, x);
    EndTagOfPart(a + x, |a|, i);
    FirstEndTag(a + x, i);
    var k := FindEndTag(a + x).value;
    EndTagInPart(a + x, |a|, k);
    FirstEndTag(a, k);
  }

  lemma BlockExtends(g: string, x: string)
    requires BlockAt(g).Some?
    ensures BlockAt(g + x).Some? && BlockAt(g + x).value == BlockAt(g).value
  {
    EndTagExtends(g[|CALL_OPEN|..], x);
    SuffixOfSum(g, x, |CALL_OPEN|);
    PrefixSplits(CALL_OPEN, g);
    AssocSeq(CALL_OPEN, g[|CALL_OPEN|..], x);
    Prefixed(CALL_OPEN, g[|CALL_OPEN|..] + x);
  }

  lemma OpenDoesNotCross(g: string, x: string)
    requires g != [] && (x == [] || x[0] == '<') && CALL_OPEN <= g + x
    ensures CALL_OPEN <= g
  {
    if |g| < |CALL_OPEN| {
      assert (g + x)[|g|] == CALL_OPEN[|g|];
      TagChars(|g|);
    } else {
      assert (g + x)[..|CALL_OPEN|] == g[..|CALL_OPEN|];
    }
  }

  lemma BlocksFirst(s: string, len: nat)
    requires BlockAt(s).Some? && BlockAt(s).value == len
    ensures Blocks(s) == [s[..len]] + Blocks(s[len..])
  {
  }

  lemma TidyStep(g: string, x: string)
    requires Tidy(g) && g != [] && BlockAt(g).None? && (x == [] || x[0] == '<')
    ensures Blocks(g + x) == Blocks(g[1..] + x) && Blocks(g) == Blocks(g[1..])
  {
    if CALL_OPEN <= g + x {
      OpenDoesNotCross(g, x);
    }
    SuffixOfSum(g, x, 1);
  }

  lemma SumCut(g: string, x: string, n: nat)
    requires n <= |g|
    ensures (g + x)[..n] == g[..n] && (g + x)[n..] == g[n..] + x
  {
  }

  lemma {:induction false} BlocksConcat(g: string, x: string)
    requires Tidy(g) && (x == [] || x[0] == '<')
    ensures Blocks(g + x) == Blocks(g) + Blocks(x)
    decreases |g|
  {
    if g == [] {
      assert g + x == x;
    } else if BlockAt(g).Some? {
      var len := BlockAt(g).value;
      BlockExtends(g, x);
      SumCut(g, x, len);
      BlocksFirst(g, len);
      BlocksFirst(g + x, len);
      BlocksConcat(g[len..], x);
      AssocSeq([g[..len]], Blocks(g[len..]), Blocks(x));
    } else {
      TidyStep(g, x);
      BlocksConcat(g[1..], x);
    }
  }

  lemma BlockThenText(c: string, y: string)
    requires IsBlock(c)
    ensures Blocks(c + y) == [c] + Blocks(y)
  {
    BlockExtends(c, y);
    Prefixed(c, y);
    BlocksFirst(c + y, |c|);
  }

  // ---- the blocks that are no calls -------------------------------------------------------

  function OtherBlocks(bs: seq<string>): seq<string> {
    if bs == [] then [] else UnlessCall(bs[0]) + OtherBlocks(bs[1..])
  }

  function UnlessCall(b: string): seq<string> {
    if CallAt(b).Some? then [] else [b]
  }

  lemma {:induction false} OtherBlocksConcat(a: seq<string>, b: seq<string>)
    ensures OtherBlocks(a + b) == OtherBlocks(a) + OtherBlocks(b)
  {
    if a == [] {
      assert a + b == b;
    } else {
      assert (a + b)[1..] == a[1..] + b;
      OtherBlocksConcat(a[1..], b);
      AssocSeq(UnlessCall(a[0]), OtherBlocks(a[1..]), OtherBlocks(b));
    }
  }

  lemma {:induction false} OtherBlocksAre(bs: seq<string>, b: string)
    ensures b in OtherBlocks(bs) <==> b in bs && CallAt(b).None?
  {
    if bs != [] {
      assert bs == [bs[0]] + bs[1..];
      OtherBlocksAre(bs[1..], b);
    }
  }

  lemma OtherBlocksSkipCall(a: seq<string>, c: string, b: seq<string>)
    requires CallAt(c).Some?
    ensures OtherBlocks(a + ([c] + b)) == OtherBlocks(a) + OtherBlocks(b)
  {
    OtherBlocksConcat(a, [c] + b);
    OtherBlocksCons([c] + b, c, b);
  }

  lemma OtherBlocksCons(bs: seq<string>, c: string, b: seq<string>)
    requires bs == [c] + b && CallAt(c).Some?
    ensures OtherBlocks(bs) == OtherBlocks(b)
  {
    assert bs[0] == c && bs[1..] == b;
    assert OtherBlocks(bs) == [] + OtherBlocks(bs[1..]);
  }

  lemma BlockBegins(c: string, y: string)
    requires IsBlock(c)
    ensures c + y != [] && (c + y)[0] == '<'
  {
    assert c[0] == CALL_OPEN[0];
  }

  /** A tidy text, a call that is a block, and whatever follows. */
  lemma OtherBlocksAround(g: string, c: string, y: string)
    requires Tidy(g) && IsBlock(c) && CallAt(c).Some?
    ensures OtherBlocks(Blocks(g + (c + y))) == OtherBlocks(Blocks(g)) + OtherBlocks(Blocks(y))
  {
    BlockBegins(c, y);
    BlocksConcat(g, c + y);
    BlockThenText(c, y);
    OtherBlocksSkipCall(Blocks(g), c, Blocks(y));
  }

  lemma CallAlone(s: string)
    requires CallAt(s).Some?
    ensures CallAt(s[..CallAt(s).value.len]).Some?
  {
    var w, w' := CallParts(s);
    var call := CallAt(s).value;
    CallBuilt(w, call.name, call.body, w', []);
    assert CallText(w, call.name, call.body, w') + [] == CallText(w, call.name, call.body, w');
  }

  lemma RewrittenAlone(env: Env, s: string)
    requires CallAt(s).Some?
    ensures CallAt(RewriteCall(env, CallAt(s).value, s[..CallAt(s).value.len])).Some?
  {
    var now := RewriteCall(env, CallAt(s).value, s[..CallAt(s).value.len]);
    RewrittenCallIsKept(env, s, []);
    assert now + [] == now;
  }

  lemma ThreeParts(s: string, i: nat, n: nat)
    requires i <= |s| && n <= |s[i..]|
    ensures s == s[..i] + (s[i..][..n] + s[i..][n..])
  {
    CutAt(s, i);
    CutAt(s[i..], n);
  }

  /** Then the blocks of the result that are no calls are those of the input. */
  lemma {:induction false} OtherBlocksKept(env: Env, s: string)
    requires Separate(s) && RewrittenSeparate(env, s)
    ensures OtherBlocks(Blocks(Transform(env, s))) == OtherBlocks(Blocks(s))
    decreases |s|
  {
    if FindCall(s).Some? {
      var i := FindCall(s).value;
      var at := s[i..];
      var call := CallAt(at).value;
      var now := RewriteCall(env, call, at[..call.len]);
      ThreeParts(s, i, call.len);
      CallAlone(at);
      OtherBlocksAround(s[..i], at[..call.len], at[call.len..]);
      RewrittenAlone(env, at);
      OtherBlocksAround(s[..i], now, Transform(env, at[call.len..]));
      OtherBlocksKept(env, at[call.len..]);
    }
  }

  // ---- an accepted result is separate -----------------------------------------------------

  /** No JSON text begins with `<`. */
  ghost predicate ReadsJson(jsonName: string -> NameRead) {
    forall t: string :: t != [] && t[0] == '<' ==> jsonName(t).Unreadable?
  }

  lemma TagOfOpening(s: string, n: nat)
    requires OpenAt(s).Some? && n == Spaces(s[|CALL_OPEN|..])
    ensures FunctionTagAt(s[|CALL_OPEN| + n..]).Some?
  {
  }

  lemma TagBeginsAt(s: string, k: nat, rest: string)
    requires k <= |s| && rest == s[k..] && FunctionTagAt(rest).Some?
    ensures k + 1 < |s| && s[k] == '<' && s[k + 1] == 'f'
  {
    FunctionTagBegins(rest);
  }

  lemma OpenChars(s: string, n: nat)
    requires OpenAt(s).Some? && n == Spaces(s[|CALL_OPEN|..])
    ensures |CALL_OPEN| + n + 1 < |s| && s[|CALL_OPEN| + n] == '<' && s[|CALL_OPEN| + n + 1] == 'f'
    ensures forall k :: |CALL_OPEN| <= k < |CALL_OPEN| + n ==> IsSpace(s[k])
  {
    TagOfOpening(s, n);
    TagBeginsAt(s, |CALL_OPEN| + n, s[|CALL_OPEN| + n..]);
    SpacesAfter(s, |CALL_OPEN|, n);
  }

  lemma SpacesAfter(s: string, p: nat, n: nat)
    requires p <= |s| && n == Spaces(s[p..])
    ensures p + n <= |s| && forall k :: p <= k < p + n ==> IsSpace(s[k])
  {
    forall k | p <= k < p + n ensures IsSpace(s[k]) {
      assert s[p..][..n][k - p] == s[k];
    }
  }

  lemma StripStarts(x: string, n: nat)
    requires n < |x| && AllSpace(x[..n]) && !IsSpace(x[n])
    ensures Strip(x) != [] && Strip(x)[0] == x[n]
  {
    SpacesOf(x[..n], x[n..]);
    CutAt(x, n);
    assert x[n..][0] == x[n];
    assert RStrip(x[n..]) != [];
  }

  lemma EndTagChars(s: string, e: nat)
    requires e + |CALL_CLOSE| <= |s| && CALL_CLOSE <= s[e..]
    ensures s[e] == '<' && s[e + 1] == '/'
  {
    assert s[e] == s[e..][0] && s[e + 1] == s[e..][1] && CALL_CLOSE[1] == s[e..][1];
  }

  lemma InnerOfTagged(b: string, x: string)
    requires b == CALL_OPEN + (x + CALL_CLOSE) && Strip(b) == b
    ensures Inner(b) == Strip(x)
  {
    Prefixed(CALL_OPEN, x + CALL_CLOSE);
    Prefixed(x, CALL_CLOSE);
  }

  lemma BlockText(t: string, len: nat)
    requires BlockAt(t).Some? && BlockAt(t).value == len
    ensures |CALL_OPEN| + |CALL_CLOSE| <= len && CALL_CLOSE <= t[len - |CALL_CLOSE|..]
    ensures t[..len] == CALL_OPEN + (t[|CALL_OPEN|..][..len - |CALL_OPEN| - |CALL_CLOSE|] + CALL_CLOSE)
  {
    var i := FindEndTag(t[|CALL_OPEN|..]).value;
    SuffixOfSuffix(t, |CALL_OPEN|, i);
    ThreeCuts(t, |CALL_OPEN|, i, |CALL_CLOSE|);
    PrefixSplits(CALL_OPEN, t);
    PrefixSplits(CALL_CLOSE, t[|CALL_OPEN|..][i..]);
  }

  /** The first end of a call comes after the function tag of an opening. */
  lemma EndTagAfterOpening(t: string, e: nat, n: nat)
    requires OpenAt(t).Some? && n == Spaces(t[|CALL_OPEN|..])
    requires |CALL_OPEN| <= e && e + |CALL_CLOSE| <= |t| && CALL_CLOSE <= t[e..]
    ensures |CALL_OPEN| + n < e
  {
    OpenChars(t, n);
    EndTagChars(t, e);
  }

  lemma FirstLtInside(t: string, e: nat, n: nat)
    requires OpenAt(t).Some? && n == Spaces(t[|CALL_OPEN|..]) && |CALL_OPEN| + n < e <= |t|
    ensures var x := Strip(t[|CALL_OPEN|..][..e - |CALL_OPEN|]); x != [] && x[0] == '<'
  {
    var x := t[|CALL_OPEN|..][..e - |CALL_OPEN|];
    OpenChars(t, n);
    assert x[n] == t[|CALL_OPEN| + n];
    assert forall k :: 0 <= k < n ==> x[k] == t[|CALL_OPEN| + k];
    StripStarts(x, n);
  }

  /** A block that is cut off inside a call is not read as JSON. */
  lemma CutCallIsNoJson(t: string, len: nat)
    requires OpenAt(t).Some? && BlockAt(t).Some? && BlockAt(t).value == len
    ensures Inner(t[..len]) != [] && Inner(t[..len])[0] == '<'
  {
    var e, n := len - |CALL_CLOSE|, Spaces(t[|CALL_OPEN|..]);
    BlockText(t, len);
    BlockAlone(t);
    BlockIsTrimmed(t[..len]);
    InnerOfTagged(t[..len], t[|CALL_OPEN|..][..e - |CALL_OPEN|]);
    EndTagAfterOpening(t, e, n);
    FirstLtInside(t, e, n);
  }

  lemma CallFromPart(t: string, len: nat)
    requires len <= |t| && CallAt(t[..len]).Some? && CallAt(t[..len]).value.len == len
    ensures CallAt(t).Some? && CallAt(t).value.len == len
  {
    var w, w' := CallParts(t[..len]);
    var call := CallAt(t[..len]).value;
    assert t[..len][..len] == t[..len];
    CallBuilt(w, call.name, call.body, w', t[len..]);
    CutAt(t, len);
  }

  /** Where the first block of a text is acceptable, it is the call the text begins with. */
  lemma AcceptableCallIsBlock(profile: Profile, jsonName: string -> NameRead, t: string)
    requires ReadsJson(jsonName) && CallAt(t).Some? && BlockAt(t).Some?
    requires Acceptable(profile, jsonName, t[..BlockAt(t).value])
    ensures BlockAt(t).value == CallAt(t).value.len
  {
    var len := BlockAt(t).value;
    BlockAlone(t);
    if CallAt(t[..len]).Some? {
      CallFillsBlock(t[..len]);
      CallFromPart(t, len);
    } else {
      CutCallIsNoJson(t, len);
    }
  }

  /** A rewritten call and what follows begin with a block. */
  lemma RewrittenOpensBlock(env: Env, s: string, rest: string)
    requires CallAt(s).Some?
    ensures BlockAt(RewriteCall(env, CallAt(s).value, s[..CallAt(s).value.len]) + rest).Some?
  {
    var t := RewriteCall(env, CallAt(s).value, s[..CallAt(s).value.len]) + rest;
    RewrittenCallIsKept(env, s, rest);
    var e := CallEnds(t);
    ClosedIsBlock(t, e);
  }

  lemma ClosedIsBlock(t: string, e: nat)
    requires CALL_OPEN <= t && |CALL_OPEN| <= e && e + |CALL_CLOSE| <= |t| && CALL_CLOSE <= t[e..]
    ensures BlockAt(t).Some?
  {
    SuffixOfSuffix(t, |CALL_OPEN|, e - |CALL_OPEN|);
    FirstEndTag(t[|CALL_OPEN|..], e - |CALL_OPEN|);
  }

  lemma AcceptableRewritten(env: Env, jsonName: string -> NameRead, s: string, rest: string)
    requires ReadsJson(jsonName) && CallAt(s).Some?
    requires var t := RewriteCall(env, CallAt(s).value, s[..CallAt(s).value.len]) + rest;
             forall b :: b in Blocks(t) ==> Acceptable(env.profile, jsonName, b)
    ensures IsBlock(RewriteCall(env, CallAt(s).value, s[..CallAt(s).value.len]))
  {
    var now := RewriteCall(env, CallAt(s).value, s[..CallAt(s).value.len]);
    RewrittenCallIsKept(env, s, rest);
    RewrittenOpensBlock(env, s, rest);
    SweptFirst(now + rest);
    AcceptableCallIsBlock(env.profile, jsonName, now + rest);
    BlockAlone(now + rest);
    Prefixed(now, rest);
  }

  lemma {:induction false} AcceptedIsSeparate(env: Env, jsonName: string -> NameRead, s: string)
    requires ReadsJson(jsonName) && Separate(s)
    requires forall b :: b in Blocks(Transform(env, s)) ==> Acceptable(env.profile, jsonName, b)
    ensures RewrittenSeparate(env, s)
    decreases |s|
  {
    if FindCall(s).Some? {
      var i := FindCall(s).value;
      var at := s[i..];
      var call := CallAt(at).value;
      var now, rest := RewriteCall(env, call, at[..call.len]), Transform(env, at[call.len..]);
      RewrittenCallIsKept(env, at, rest);
      assert (now + rest)[0] == CALL_OPEN[0];
      BlocksConcat(s[..i], now + rest);
      AcceptableRewritten(env, jsonName, at, rest);
      BlockThenText(now, rest);
      AcceptedIsSeparate(env, jsonName, at[call.len..]);
    }
  }

  /** Read off the input: an accepted text whose calls and JSON blocks do not overlap names
      only tools of the profile exactly when no JSON block of the input names a tool that
      is to be migrated. */
  lemma InputToolsAreAllowedIff(env: Env, jsonName: string -> NameRead, s: string)
    requires ReadsJson(jsonName) && Separate(s)
    requires Convert(env, jsonName, s).1 == []
    ensures OtherBlocks(Blocks(Transform(env, s))) == OtherBlocks(Blocks(s))
    ensures (forall b :: b in Blocks(Transform(env, s)) ==> NamesProfileTool(env.profile, jsonName, b))
            <==> (forall b :: b in Blocks(s) ==> !NamesMigratedTool(env.profile, jsonName, b))
  {
    var text := Transform(env, s);
    AcceptedIff(env, jsonName, s);
    AcceptedIsSeparate(env, jsonName, s);
    OtherBlocksKept(env, s);
    AcceptedToolsAreAllowedIff(env, jsonName, s);
    forall b ensures b in Blocks(text) && NamesMigratedTool(env.profile, jsonName, b)
                     <==> b in Blocks(s) && NamesMigratedTool(env.profile, jsonName, b)
    {
      OtherBlocksAre(Blocks(text), b);
      OtherBlocksAre(Blocks(s), b);
    }
  }
}
