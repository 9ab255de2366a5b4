/** What a converted text says, call by call: the text is cut into its calls and what stands
    between them, and each piece is followed through the conversion. */
module ConvertedCalls {
  import opened Plans
  import opened Text
  import opened Markup
  import opened ToolCalls
  import opened Migrations
  import opened Converter
  import opened CallTexts

  /** A piece of a text: a call or a parameter with its name and what it encloses, or what
      stands between two of them. */
  datatype Piece = Gap(text: string) | Part(text: string, name: string, inside: string)

  // ---- the parameters of a call -----------------------------------------------------------

  /** The pieces, in order, are the text; the parts are whole parameters, and none begins in a gap. */
  ghost predicate CutAtParams(s: string, ps: seq<Piece>)
    decreases |ps|
  {
    if ps == [] then s == ""
    else
      && ps[0].text <= s
      && (ps[0].Gap? ==> NoParamUpTo(s, |ps[0].text|))
      && (ps[0].Part? ==> ParamIs(ps[0].text, ps[0].name, ps[0].inside))
      && CutAtParams(s[|ps[0].text|..], ps[1..])
  }

  /** The keys and values of the parts. */
  function Pairs(ps: seq<Piece>): Args {
    if ps == [] then []
    else (if ps[0].Part? then [(ps[0].name, Strip(ps[0].inside))] else []) + Pairs(ps[1..])
  }

  lemma CharIsNoParam(s: string)
    requires s != [] && ParamAt(s).None?
    ensures Params(s) == Params(s[1..])
  {
  }

  lemma {:induction false} GapHasNoParams(s: string, n: nat)
    requires n <= |s| && NoParamUpTo(s, n)
    ensures Params(s) == Params(s[n..])
  {
    if n == 0 {
      assert s[0..] == s;
    } else {
      NoParamInTail(s, n - 1);
      CharIsNoParam(s);
      GapHasNoParams(s[1..], n - 1);
      SuffixOfSuffix(s, 1, n - 1);
    }
  }

  lemma FirstParam(s: string, t: string, key: string, inner: string)
    requires ParamIs(t, key, inner) && t <= s
    ensures Params(s) == [(key, Strip(inner))] + Params(s[|t|..])
  {
    PrefixSplits(t, s);
    ParamIsFound(t, key, inner, s[|t|..]);
  }

  /** The pairs read are those of the whole parameters, for every such cut. */
  lemma {:induction false} ParamsOfCut(s: string, ps: seq<Piece>)
    requires CutAtParams(s, ps)
    ensures Params(s) == Pairs(ps)
    decreases |ps|
  {
    if ps != [] {
      var rest := s[|ps[0].text|..];
      ParamsOfCut(rest, ps[1..]);
      match ps[0]
      case Gap(text) => GapHasNoParams(s, |text|);
      case Part(text, name, inside) => FirstParam(s, text, name, inside);
    }
  }

  /** The last pair with this key. */
  predicate LastAt(pairs: Args, key: string, i: nat) {
    i < |pairs| && pairs[i].0 == key && forall j :: i < j < |pairs| ==> pairs[j].0 != key
  }

  predicate NoneAt(pairs: Args, key: string) {
    forall j :: 0 <= j < |pairs| ==> pairs[j].0 != key
  }

  lemma {:induction false} LastPairCounts(pairs: Args, key: string, i: nat)
    requires LastAt(pairs, key, i)
    ensures Get(Dict(pairs), key) == Some(pairs[i].1)
  {
    var n := |pairs| - 1;
    GetPut(Dict(pairs[..n]), pairs[n].0, pairs[n].1, key);
    if i < n {
      LastPairCounts(pairs[..n], key, i);
    }
  }

  lemma {:induction false} NoPairNoValue(pairs: Args, key: string)
    requires NoneAt(pairs, key)
    ensures Get(Dict(pairs), key) == None
  {
    if pairs != [] {
      var n := |pairs| - 1;
      GetPut(Dict(pairs[..n]), pairs[n].0, pairs[n].1, key);
      NoPairNoValue(pairs[..n], key);
    }
  }

  /** What the parser reads: for every cut of a call body into whole parameters and gaps, a key
      has the value of its last parameter, without the white space around it, and a key of no
      parameter has none. */
  lemma ParsedMeans(body: string, ps: seq<Piece>, key: string)
    requires CutAtParams(body, ps)
    ensures NoneAt(Pairs(ps), key) ==> Get(ParseArgs(body), key) == None
    ensures forall i: nat :: LastAt(Pairs(ps), key, i) ==> Get(ParseArgs(body), key) == Some(Pairs(ps)[i].1)
  {
    ParamsOfCut(body, ps);
    forall i: nat | LastAt(Pairs(ps), key, i) ensures Get(ParseArgs(body), key) == Some(Pairs(ps)[i].1) {
      LastPairCounts(Pairs(ps), key, i);
    }
    if NoneAt(Pairs(ps), key) {
      NoPairNoValue(Pairs(ps), key);
    }
  }

  /** Every body can be cut so. */
  lemma {:induction false} ParamCutExists(s: string) returns (ps: seq<Piece>)
    ensures CutAtParams(s, ps)
    decreases |s|
  {
    ParamAtIff(s);
    if s == "" {
      ps := [];
    } else if ParamAt(s).Some? {
      var p := ParamAt(s).value;
      var inner := FoundIsParam(s);
      var rest := ParamCutExists(s[p.len..]);
      ps := [Part(s[..p.len], p.key, inner)] + rest;
      assert ps[1..] == rest;
    } else {
      var rest := ParamCutExists(s[1..]);
      ps := [Gap(s[..1])] + rest;
      assert ps[1..] == rest && s[0..] == s;
    }
  }

  // ---- the calls of a text ----------------------------------------------------------------

  /** The pieces, in order, are the text; the parts are whole calls, and none begins in a gap. */
  ghost predicate CutAtCalls(s: string, ps: seq<Piece>)
    decreases |ps|
  {
    if ps == [] then s == ""
    else
      && ps[0].text <= s
      && (ps[0].Gap? ==> NoCallUpTo(s, |ps[0].text|))
      && (ps[0].Part? ==> CallIs(ps[0].text, ps[0].name, ps[0].inside))
      && CutAtCalls(s[|ps[0].text|..], ps[1..])
  }

  predicate ReadsAs(inside: string, args: Args) { ParseArgs(inside) == args }

  /** `t` is a call of that tool that is read with these arguments. */
  ghost predicate SaysCall(t: string, name: string, args: Args) {
    exists inside :: CallIs(t, name, inside) && ReadsAs(inside, args)
  }

  /** What a piece becomes: a gap and a call that is refused stay, and any other call becomes
      one of the tool and the arguments it is rewritten to. */
  ghost predicate Becomes(env: Env, piece: Piece, now: string) {
    match piece
    case Gap(text) => now == text
    case Part(text, name, inside) =>
      match TransformArgs(env, name, ParseArgs(inside))
      case Rejected(_) => now == text
      case Rewritten(newName, args) => SaysCall(now, newName, args)
  }

  function Concat(ts: seq<string>): string {
    if ts == [] then "" else ts[0] + Concat(ts[1..])
  }

  /** The error of a call that is refused. */
  function Refusal(env: Env, piece: Piece): seq<string> {
    if piece.Gap? then []
    else
      match TransformArgs(env, piece.name, ParseArgs(piece.inside))
      case Rejected(error) => [error]
      case Rewritten(_, _) => []
  }

  function Refusals(env: Env, ps: seq<Piece>): seq<string> {
    if ps == [] then [] else Refusal(env, ps[0]) + Refusals(env, ps[1..])
  }

  lemma OneCharGap(s: string)
    requires s != [] && CallAt(s).None?
    ensures FindCall(s).Some? <==> FindCall(s[1..]).Some?
    ensures FindCall(s).Some? ==> FindCall(s).value == FindCall(s[1..]).value + 1
  {
  }

  lemma CharFromFirstCall(s: string, i: nat)
    requires 0 < i <= |s|
    ensures s[i..] == s[1..][i - 1..] && s[..i] == [s[0]] + s[1..][..i - 1]
  {
  }

  /** A character where no call begins is kept. */
  lemma CharKept(env: Env, s: string)
    requires s != [] && CallAt(s).None?
    ensures Transform(env, s) == [s[0]] + Transform(env, s[1..])
    ensures CallErrors(env, s) == CallErrors(env, s[1..])
  {
    OneCharGap(s);
    if FindCall(s).Some? {
      var i := FindCall(s).value;
      CharFromFirstCall(s, i);
      var call := CallAt(s[i..]).value;
      AssocSeq([s[0]], s[1..][..i - 1],
               RewriteCall(env, call, s[i..][..call.len]) + Transform(env, s[i..][call.len..]));
    } else {
      assert s == [s[0]] + s[1..];
    }
  }

  lemma {:induction false} GapKept(env: Env, s: string, n: nat)
    requires n <= |s| && NoCallUpTo(s, n)
    ensures Transform(env, s) == s[..n] + Transform(env, s[n..])
    ensures CallErrors(env, s) == CallErrors(env, s[n..])
  {
    assert s[0..] == s;
    if n == 0 {
      assert s[..0] + Transform(env, s) == Transform(env, s);
    } else {
      NoCallInTail(s, n - 1);
      CharKept(env, s);
      GapKept(env, s[1..], n - 1);
      CharFromFirstCall(s, n);
      AssocSeq([s[0]], s[1..][..n - 1], Transform(env, s[n..]));
    }
  }

  lemma FirstCallHere(s: string)
    requires CallAt(s).Some?
    ensures FindCall(s) == Some(0)
  {
  }

  lemma CallHere(env: Env, s: string, t: string, name: string, inside: string)
    requires CallIs(t, name, inside) && t <= s
    ensures var call := Call(name, inside, |t|);
      && Transform(env, s) == RewriteCall(env, call, t) + Transform(env, s[|t|..])
      && CallErrors(env, s) == CallError(env, call) + CallErrors(env, s[|t|..])
  {
    PrefixSplits(t, s);
    CallIsFound(t, name, inside, s[|t|..]);
    FirstCallHere(s);
    assert s[0..] == s && s[..0] == [];
    EmptyPrefix(RewriteCall(env, Call(name, inside, |t|), t) + Transform(env, s[|t|..]));
  }

  /** What is put in place of a call says the rewritten call. */
  lemma RewrittenSays(env: Env, t: string, name: string, inside: string)
    requires CallIs(t, name, inside)
    ensures Becomes(env, Part(t, name, inside), RewriteCall(env, Call(name, inside, |t|), t))
  {
    NoEndIff(inside);
    ParsedIsPrintable(inside);
    var r := TransformArgs(env, name, ParseArgs(inside));
    if r.Rewritten? {
      TransformIsStable(env, name, ParseArgs(inside));
      BodyIsCloseFree(r.args);
      ParseRendered(r.args);
      RenderedIsCall(r.name, r.args);
      NoEndIff(Body(r.args));
      WrittenIs(Rendered(r.name, r.args), r.name, Body(r.args), "\n", "\n");
      assert CallIs(Rendered(r.name, r.args), r.name, Body(r.args)) && ReadsAs(Body(r.args), r.args);
    }
  }

  /** The converted text, for every cut of a text into its calls and the gaps between them: the
      pieces one after the other, each become what it becomes; the errors are those of the
      calls that are refused. */
  lemma {:induction false} ConversionMeans(env: Env, s: string, ps: seq<Piece>) returns (ts: seq<string>)
    requires CutAtCalls(s, ps)
    ensures Transform(env, s) == Concat(ts) && |ts| == |ps|
    ensures forall i :: 0 <= i < |ps| ==> Becomes(env, ps[i], ts[i])
    ensures CallErrors(env, s) == Refusals(env, ps)
    decreases |ps|
  {
    if ps == [] {
      ts := [];
    } else {
      var n := |ps[0].text|;
      var more := ConversionMeans(env, s[n..], ps[1..]);
      var now := FirstPiece(env, s, ps);
      ts := [now] + more;
      assert ts[1..] == more;
    }
  }

  lemma GapPiece(env: Env, s: string, text: string, rest: string)
    requires |text| <= |s| && text == s[..|text|] && rest == s[|text|..] && NoCallUpTo(s, |text|)
    ensures Transform(env, s) == text + Transform(env, rest)
    ensures CallErrors(env, s) == CallErrors(env, rest)
  {
    GapKept(env, s, |text|);
  }

  lemma NoErrorsFirst(errors: seq<string>)
    ensures [] + errors == errors
  {
  }

  lemma PartPiece(env: Env, s: string, piece: Piece) returns (now: string)
    requires piece.Part? && CallIs(piece.text, piece.name, piece.inside) && piece.text <= s
    ensures Becomes(env, piece, now)
    ensures Transform(env, s) == now + Transform(env, s[|piece.text|..])
    ensures CallErrors(env, s) == Refusal(env, piece) + CallErrors(env, s[|piece.text|..])
  {
    var call := Call(piece.name, piece.inside, |piece.text|);
    now := RewriteCall(env, call, piece.text);
    RewrittenSays(env, piece.text, piece.name, piece.inside);
    CallHere(env, s, piece.text, piece.name, piece.inside);
    RefusalIs(env, call, piece);
  }

  lemma RefusalIs(env: Env, call: Call, piece: Piece)
    requires piece.Part? && call.name == piece.name && call.body == piece.inside
    ensures CallError(env, call) == Refusal(env, piece)
  {
  }

  lemma FirstPiece(env: Env, s: string, ps: seq<Piece>) returns (now: string)
    requires ps != [] && CutAtCalls(s, ps)
    ensures Becomes(env, ps[0], now)
    ensures Transform(env, s) == now + Transform(env, s[|ps[0].text|..])
    ensures CallErrors(env, s) == Refusal(env, ps[0]) + CallErrors(env, s[|ps[0].text|..])
  {
    if ps[0].Gap? {
      var rest := s[|ps[0].text|..];
      GapPiece(env, s, ps[0].text, rest);
      NoErrorsFirst(CallErrors(env, rest));
      now := ps[0].text;
    } else {
      now := PartPiece(env, s, ps[0]);
    }
  }

  /** Every text can be cut so. */
  lemma {:induction false} CallCutExists(s: string) returns (ps: seq<Piece>)
    ensures CutAtCalls(s, ps)
    decreases |s|
  {
    CallAtIff(s);
    if s == "" {
      ps := [];
    } else if CallAt(s).Some? {
      var call := CallAt(s).value;
      FoundIsCall(s);
      var rest := CallCutExists(s[call.len..]);
      ps := [Part(s[..call.len], call.name, call.body)] + rest;
      assert ps[1..] == rest;
    } else {
      var rest := CallCutExists(s[1..]);
      ps := [Gap(s[..1])] + rest;
      assert ps[1..] == rest && s[0..] == s;
    }
  }

  // ---- the layout -------------------------------------------------------------------------

  /** A call without arguments, and one with another argument at the end: one line for each
      tag, the value on lines of its own. */
  lemma LayoutIs(name: string, args: Args, front: string, key: string, value: string)
    requires Rendered(name, args) == front + "</function>\n</tool_call>"
    ensures Rendered(name, []) == "<tool_call>\n<function=" + name + ">\n" + "</function>\n</tool_call>"
    ensures Rendered(name, args + [(key, value)])
         == front + ("<parameter=" + key + ">\n" + value + "\n</parameter>\n") + "</function>\n</tool_call>"
  {
    EndText();
    SameFront(Opening("\n", name) + Body(args), front, "</function>\n</tool_call>");
    assert Opening("\n", name) == "<tool_call>\n<function=" + name + ">";
    BlocksSnoc(args, (key, value));
    BlockText(key, value);
    AssocSeq("\n", ParamBlocks(args), ParamBlock(key, value));
    AssocSeq(Opening("\n", name), Body(args), ParamBlock(key, value));
  }

  lemma SameFront(a: string, b: string, end: string)
    requires a + end == b + end
    ensures a == b
  {
    assert |a + end| == |b + end|;
    Prefixed(a, end);
    Prefixed(b, end);
  }

  lemma EndText()
    ensures Closing("\n") == "</function>\n</tool_call>"
  {
  }

  lemma BlockText(key: string, value: string)
    ensures ParamBlock(key, value) == "<parameter=" + key + ">\n" + value + "\n</parameter>\n"
  {
  }
}
