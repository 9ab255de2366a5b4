/** render_xml_tool_call and parse_xml_params of convert_to_openclaw_compat.py, the
    scan for whole tool calls, and the round trip between them. */
module ToolCalls {
  import opened Plans
  import opened Text
  import opened Markup
  import opened CleanText

  /** A dictionary in insertion order. */
  type Args = seq<(string, string)>

  /** args.get(key) */
  function Get(args: Args, key: string): Option<string> {
    if args == [] then None
    else if args[0].0 == key then Some(args[0].1)
    else Get(args[1..], key)
  }

  predicate Has(args: Args, key: string) { Get(args, key).Some? }

  /** `args[key] = value`: in place when the key is there, appended otherwise. */
  function Put(args: Args, key: string, value: string): Args {
    if args == [] then [(key, value)]
    else if args[0].0 == key then [(key, value)] + args[1..]
    else [args[0]] + Put(args[1..], key, value)
  }

  function Dict(pairs: Args): Args {
    if pairs == [] then []
    else
      var last := pairs[|pairs| - 1];
      Put(Dict(pairs[..|pairs| - 1]), last.0, last.1)
  }

  /** args.pop(key, None) */
  function Remove(args: Args, key: string): Args {
    if args == [] then []
    else if args[0].0 == key then Remove(args[1..], key)
    else [args[0]] + Remove(args[1..], key)
  }

  predicate DistinctKeys(args: Args) {
    args == [] || (!Has(args[1..], args[0].0) && DistinctKeys(args[1..]))
  }

  lemma {:induction false} GetPut(args: Args, key: string, value: string, q: string)
    ensures Get(Put(args, key, value), q) == if q == key then Some(value) else Get(args, q)
  {
    if args != [] {
      GetPut(args[1..], key, value, q);
    }
  }

  lemma {:induction false} GetRemove(args: Args, key: string, q: string)
    ensures Get(Remove(args, key), q) == if q == key then None else Get(args, q)
  {
    if args != [] {
      GetRemove(args[1..], key, q);
    }
  }

  lemma {:induction false} PutDistinct(args: Args, key: string, value: string)
    requires DistinctKeys(args)
    ensures DistinctKeys(Put(args, key, value))
  {
    if args != [] {
      PutDistinct(args[1..], key, value);
      GetPut(args[1..], key, value, args[0].0);
    }
  }

  lemma {:induction false} RemoveDistinct(args: Args, key: string)
    requires DistinctKeys(args)
    ensures DistinctKeys(Remove(args, key))
  {
    if args != [] {
      RemoveDistinct(args[1..], key);
      GetRemove(args[1..], key, args[0].0);
    }
  }

  lemma {:induction false} RemoveMissing(args: Args, key: string)
    requires !Has(args, key)
    ensures Remove(args, key) == args
  {
    if args != [] {
      RemoveMissing(args[1..], key);
    }
  }

  // ---- parsing ----------------------------------------------------------------------------

  datatype Param = Param(key: string, value: string, len: nat)

  function ParamTag(key: string): string {
    PARAM_OPEN + key + ">"
  }

  /** `<parameter=key>` at the start of `s`, if it is there. */
  function ParamTagAt(s: string): (r: Option<Tag>)
    ensures r.Some? ==> 0 < r.value.len <= |s| && IsName(r.value.name)
  {
    if !(PARAM_OPEN <= s) then None
    else
      var rest := s[|PARAM_OPEN|..];
      var n := NameLen(rest);
      if n == 0 || !IsNameStart(rest[0]) || n == |rest| || rest[n] != '>' then None
      else Some(Tag(rest[..n], |PARAM_OPEN| + n + 1))
  }

  /** A parameter block at the start of `s`: name, text up to the first closing tag. */
  function ParamAt(s: string): (r: Option<Param>)
    ensures r.Some? ==> 0 < r.value.len <= |s|
  {
    match ParamTagAt(s)
    case None => None
    case Some(tag) =>
      var after := s[tag.len..];
      match FindEnd(after)
      case None => None
      case Some(e) => Some(Param(tag.name, Strip(after[..e]), tag.len + e + |PARAM_CLOSE|))
  }

  /** The parameter blocks of a call body, left to right. */
  function Params(s: string): Args
    decreases |s|
  {
    if s == [] then []
    else
      match ParamAt(s)
      case Some(p) => [(p.key, p.value)] + Params(s[p.len..])
      case None => Params(s[1..])
  }

  /** parse_xml_params. */
  function ParseArgs(body: string): Args {
    Dict(Params(body))
  }

  // ---- printing ---------------------------------------------------------------------------

  function ParamBlock(key: string, text: string): string {
    PARAM_OPEN + key + ">\n" + text + "\n" + PARAM_CLOSE + "\n"
  }

  function ParamBlocks(args: Args): string {
    if args == [] then [] else ParamBlock(args[0].0, args[0].1) + ParamBlocks(args[1..])
  }

  /** What is printed between the opening and the closing of a call. */
  function Body(args: Args): string {
    "\n" + ParamBlocks(args)
  }

  function Rendered(name: string, args: Args): string {
    Opening("\n", name) + Body(args) + Closing("\n")
  }

  lemma {:induction false} BlocksSnoc(args: Args, last: (string, string))
    ensures ParamBlocks(args + [last]) == ParamBlocks(args) + ParamBlock(last.0, last.1)
  {
    if args == [] {
      assert [last][1..] == [];
      assert ParamBlocks([last]) == ParamBlock(last.0, last.1) + ParamBlocks([]);
    } else {
      assert (args + [last])[1..] == args[1..] + [last];
      BlocksSnoc(args[1..], last);
      AssocSeq(ParamBlock(args[0].0, args[0].1), ParamBlocks(args[1..]), ParamBlock(last.0, last.1));
    }
  }

  /** `"\n".join(parts)` */
  function Join(parts: seq<string>): string {
    JoinWith("\n", parts)
  }

  lemma JoinSnoc(parts: seq<string>, last: string)
    requires parts != []
    ensures Join(parts + [last]) == Join(parts) + "\n" + last
  {
    assert (parts + [last])[..|parts + [last]| - 1] == parts;
  }

  /** The parts list once the parameters `args` are in it. */
  ghost predicate PartsHold(parts: seq<string>, name: string, args: Args) {
    parts != [] && Join(parts) + "\n" == Opening("\n", name) + Body(args)
  }

  lemma PartsNext(parts: seq<string>, name: string, args: Args, arg: (string, string))
    requires PartsHold(parts, name, args)
    ensures PartsHold(parts + [PARAM_OPEN + arg.0 + ">"] + [arg.1] + [PARAM_CLOSE], name, args + [arg])
  {
    var tag := PARAM_OPEN + arg.0 + ">";
    JoinSnoc(parts, tag);
    JoinSnoc(parts + [tag], arg.1);
    JoinSnoc(parts + [tag] + [arg.1], PARAM_CLOSE);
    BlocksSnoc(args, arg);
    var head := Opening("\n", name);
    calc {
      Join(parts + [tag] + [arg.1] + [PARAM_CLOSE]) + "\n";
      Join(parts) + "\n" + tag + "\n" + arg.1 + "\n" + PARAM_CLOSE + "\n";
      (head + Body(args)) + tag + "\n" + arg.1 + "\n" + PARAM_CLOSE + "\n";
      { assert tag + "\n" == PARAM_OPEN + arg.0 + ">\n"; }
      (head + Body(args)) + ParamBlock(arg.0, arg.1);
      { AssocSeq(head, Body(args), ParamBlock(arg.0, arg.1)); }
      head + (Body(args) + ParamBlock(arg.0, arg.1));
      { AssocSeq("\n", ParamBlocks(args), ParamBlock(arg.0, arg.1)); }
      head + Body(args + [arg]);
    }
  }

  lemma FirstParts(name: string)
    ensures PartsHold([CALL_OPEN] + [FunctionTag(name)], name, [])
  {
    JoinSnoc([CALL_OPEN], FunctionTag(name));
  }

  lemma LastParts(parts: seq<string>, name: string, args: Args)
    requires PartsHold(parts, name, args)
    ensures Join(parts + [FUNCTION_CLOSE] + [CALL_CLOSE]) == Rendered(name, args)
  {
    JoinSnoc(parts, FUNCTION_CLOSE);
    JoinSnoc(parts + [FUNCTION_CLOSE], CALL_CLOSE);
    assert Join(parts) + "\n" + FUNCTION_CLOSE + "\n" + CALL_CLOSE
        == (Join(parts) + "\n") + Closing("\n");
  }

  /** render_xml_tool_call on already printed argument values. */
  method RenderXmlToolCall(name: string, args: Args) returns (text: string)
    ensures text == Rendered(name, args)
  {
    var parts := [CALL_OPEN] + [FunctionTag(name)];
    FirstParts(name);
    for i := 0 to |args|
      invariant PartsHold(parts, name, args[..i])
    {
      PartsNext(parts, name, args[..i], args[i]);
      TakeSnoc(args, i);
      parts := parts + [PARAM_OPEN + args[i].0 + ">"] + [args[i].1] + [PARAM_CLOSE];
    }
    assert args[..|args|] == args;
    LastParts(parts, name, args);
    text := Join(parts + [FUNCTION_CLOSE] + [CALL_CLOSE]);
  }

  // ---- the round trip ---------------------------------------------------------------------

  predicate PrintableEntry(arg: (string, string)) {
    IsName(arg.0) && Trimmed(arg.1) && Clean(arg.1)
  }

  predicate PrintableEntries(args: Args) {
    args == [] || (PrintableEntry(args[0]) && PrintableEntries(args[1..]))
  }

  /** Arguments the printer and the parser agree on. */
  predicate Printable(args: Args) {
    DistinctKeys(args) && PrintableEntries(args)
  }

  lemma {:induction false} PutPrintable(args: Args, key: string, value: string)
    requires PrintableEntries(args) && PrintableEntry((key, value))
    ensures PrintableEntries(Put(args, key, value))
  {
    if args != [] {
      PutPrintable(args[1..], key, value);
    }
  }

  lemma {:induction false} RemovePrintable(args: Args, key: string)
    requires PrintableEntries(args)
    ensures PrintableEntries(Remove(args, key))
  {
    if args != [] {
      RemovePrintable(args[1..], key);
    }
  }

  lemma {:induction false} GetPrintable(args: Args, key: string)
    requires PrintableEntries(args) && Has(args, key)
    ensures PrintableEntry((key, Get(args, key).value))
  {
    if args[0].0 != key {
      GetPrintable(args[1..], key);
    }
  }

  lemma NewlinesAround(t: string)
    requires Clean(t)
    ensures EndFree("\n" + t + "\n")
  {
    CleanAfterPlain("\n", t);
    CleanIsBoth("\n" + t);
    EndFreeBeforeNewline("\n" + t);
  }

  lemma ParamTagBuilt(key: string, after: string)
    requires IsName(key)
    ensures var r := ParamTagAt(ParamTag(key) + after);
            r.Some? && r.value.name == key && r.value.len == |ParamTag(key)|
  {
    var rest := key + (">" + after);
    AssocSeq(PARAM_OPEN + key, ">", after);
    AssocSeq(PARAM_OPEN, key, ">" + after);
    Prefixed(PARAM_OPEN, rest);
    NameLenOf(key, ">" + after);
    Prefixed(key, ">" + after);
  }

  lemma ParamFrom(s: string, len: nat, e: nat)
    requires ParamTagAt(s).Some? && ParamTagAt(s).value.len == len
    requires FindEnd(s[len..]).Some? && FindEnd(s[len..]).value == e
    ensures var r := ParamAt(s);
            && r.Some? && r.value.key == ParamTagAt(s).value.name
            && r.value.value == Strip(s[len..][..e]) && r.value.len == len + e + |PARAM_CLOSE|
  {
  }

  lemma ParamBuilt(key: string, t: string, inner: string, more: string)
    requires IsName(key) && Trimmed(t) && Clean(t) && inner == "\n" + t + "\n"
    ensures var r := ParamAt(ParamTag(key) + (inner + (PARAM_CLOSE + more)));
            && r.Some? && r.value.key == key && r.value.value == t
            && r.value.len == |ParamTag(key)| + |inner| + |PARAM_CLOSE|
  {
    var after := inner + (PARAM_CLOSE + more);
    ParamTagBuilt(key, after);
    Prefixed(ParamTag(key), after);
    NewlinesAround(t);
    FindEndBuilt(inner, more);
    Prefixed(inner, PARAM_CLOSE + more);
    StripPadded("\n", t, "\n");
    ParamFrom(ParamTag(key) + after, |ParamTag(key)|, |inner|);
  }

  lemma BlockShape(key: string, t: string, rest: string)
    ensures var inner, more := "\n" + t + "\n", "\n" + rest;
            var front := |ParamTag(key)| + |inner| + |PARAM_CLOSE|;
            && ParamBlock(key, t) + rest == ParamTag(key) + (inner + (PARAM_CLOSE + more))
            && front <= |ParamBlock(key, t) + rest|
            && (ParamBlock(key, t) + rest)[front..] == more
  {
    var inner, more := "\n" + t + "\n", "\n" + rest;
    var front := ParamTag(key) + inner + PARAM_CLOSE;
    assert ParamBlock(key, t) == front + "\n";
    assert ParamBlock(key, t) + rest == front + more;
    Prefixed(front, more);
    assert front + more == ParamTag(key) + (inner + (PARAM_CLOSE + more));
  }

  lemma NewlineIsSkipped(x: string)
    ensures Params("\n" + x) == Params(x)
  {
    var s := "\n" + x;
    assert s[0] == '\n' && s[1..] == x;
    if PARAM_OPEN <= s {
      ParamOpenStart(s);
    }
  }

  lemma ParamOpenStart(s: string)
    requires PARAM_OPEN <= s
    ensures s[0] == '<'
  {
  }

  lemma ParamsAt(s: string, rest: string)
    requires ParamAt(s).Some? && s[ParamAt(s).value.len..] == "\n" + rest
    ensures Params(s) == [(ParamAt(s).value.key, ParamAt(s).value.value)] + Params(rest)
  {
    NewlineIsSkipped(rest);
  }

  lemma ParamBlockRead(key: string, t: string, rest: string)
    requires IsName(key) && Trimmed(t) && Clean(t)
    ensures var s := ParamBlock(key, t) + rest;
            var r := ParamAt(s);
            && r.Some? && r.value.key == key && r.value.value == t
            && r.value.len <= |s| && s[r.value.len..] == "\n" + rest
  {
    BlockShape(key, t, rest);
    ParamBuilt(key, t, "\n" + t + "\n", "\n" + rest);
  }

  lemma ParamsStep(key: string, t: string, rest: string)
    requires IsName(key) && Trimmed(t) && Clean(t)
    ensures Params(ParamBlock(key, t) + rest) == [(key, t)] + Params(rest)
  {
    ParamBlockRead(key, t, rest);
    ParamsAt(ParamBlock(key, t) + rest, rest);
  }

  lemma {:induction false} ParamsOfBlocks(args: Args)
    requires PrintableEntries(args)
    ensures Params(ParamBlocks(args)) == args
  {
    if args != [] {
      ParamsStep(args[0].0, args[0].1, ParamBlocks(args[1..]));
      ParamsOfBlocks(args[1..]);
      assert args == [args[0]] + args[1..];
    }
  }

  lemma {:induction false} PutNewKey(args: Args, key: string, value: string)
    requires !Has(args, key)
    ensures Put(args, key, value) == args + [(key, value)]
  {
    if args != [] {
      PutNewKey(args[1..], key, value);
    }
  }

  lemma {:induction false} DistinctInit(args: Args)
    requires args != [] && DistinctKeys(args)
    ensures var n := |args| - 1; DistinctKeys(args[..n]) && !Has(args[..n], args[n].0)
  {
    var n := |args| - 1;
    if n > 0 {
      DistinctInit(args[1..]);
      assert args[..n][1..] == args[1..][..n - 1];
      HasInPrefix(args[1..], n - 1, args[0].0);
      HasAt(args[1..], n - 1);
    }
  }

  lemma {:induction false} HasInPrefix(args: Args, n: nat, key: string)
    requires n <= |args| && !Has(args, key)
    ensures !Has(args[..n], key)
  {
    if n > 0 {
      assert args[..n][1..] == args[1..][..n - 1];
      HasInPrefix(args[1..], n - 1, key);
    }
  }

  lemma {:induction false} HasAt(args: Args, i: nat)
    requires i < |args|
    ensures Has(args, args[i].0)
  {
    if i > 0 {
      HasAt(args[1..], i - 1);
    }
  }

  lemma {:induction false} DictOfDistinct(args: Args)
    requires DistinctKeys(args)
    ensures Dict(args) == args
  {
    if args != [] {
      var n := |args| - 1;
      DistinctInit(args);
      DictOfDistinct(args[..n]);
      PutNewKey(args[..n], args[n].0, args[n].1);
      TakeSnoc(args, n);
    }
  }

  /** Parsing what was printed gives back the arguments. */
  lemma ParseRendered(args: Args)
    requires Printable(args)
    ensures ParseArgs(Body(args)) == args
  {
    NewlineIsSkipped(ParamBlocks(args));
    ParamsOfBlocks(args);
    DictOfDistinct(args);
  }

  /** The body that was printed contains no end of a call. */
  lemma BodyIsCloseFree(args: Args)
    requires PrintableEntries(args)
    ensures CloseFree(Body(args))
  {
    BlocksCloseFree(args);
    CloseFreeAfterPlain("\n", ParamBlocks(args));
  }

  lemma ClosingTagIsPlain(tag: string)
    requires tag == PARAM_CLOSE + "\n"
    ensures |tag| > 2 && tag[0] == '<' && tag[2] == 'p' && NoLt(tag[1..])
    ensures forall r :: PARAM_CLOSE <= tag + r
  {
    forall r ensures PARAM_CLOSE <= tag + r {
      AssocSeq(PARAM_CLOSE, "\n", r);
      Prefixed(PARAM_CLOSE, "\n" + r);
    }
  }

  lemma BlockCloseFree(key: string, t: string, rest: string)
    requires IsName(key) && Clean(t) && CloseFree(rest)
    ensures CloseFree(ParamBlock(key, t) + rest)
  {
    var closing := PARAM_CLOSE + "\n";
    var opening := PARAM_OPEN + key + ">\n";
    ClosingTagIsPlain(closing);
    CloseFreeAfterTag(closing, rest);
    ValueCloseFree(t, closing + rest);
    TagIsPlain(key);
    CloseFreeAfterTag(opening, t + ("\n" + (closing + rest)));
    BlockPieces(opening, t, closing, rest);
    assert ParamBlock(key, t) == opening + t + "\n" + closing;
  }

  lemma BlockPieces(opening: string, t: string, closing: string, rest: string)
    ensures (opening + t + "\n" + closing) + rest == opening + (t + ("\n" + (closing + rest)))
  {
  }

  lemma {:induction false} BlocksCloseFree(args: Args)
    requires PrintableEntries(args)
    ensures CloseFree(ParamBlocks(args))
  {
    if args != [] {
      BlocksCloseFree(args[1..]);
      BlockCloseFree(args[0].0, args[0].1, ParamBlocks(args[1..]));
    }
  }

  lemma TagIsPlain(key: string)
    requires IsName(key)
    ensures var tag := PARAM_OPEN + key + ">\n";
            |tag| > 2 && tag[0] == '<' && !(tag[1] == '/' && tag[2] == 'f') && NoLt(tag[1..])
  {
    var tag := PARAM_OPEN + key + ">\n";
    forall i | 0 < i < |tag| ensures tag[i] != '<' {
      if i < |PARAM_OPEN| {
        assert tag[i] == PARAM_OPEN[i];
      } else if i < |PARAM_OPEN| + |key| {
        assert tag[i] == key[i - |PARAM_OPEN|];
      }
    }
  }

  /** A call end does not begin in a clean value and run over the closing tag. */
  lemma {:induction false} ValueCloseFree(t: string, tail: string)
    requires Clean(t) && CloseFree(tail) && PARAM_CLOSE <= tail
    ensures CloseFree(t + ("\n" + tail))
  {
    if t == [] {
      assert t + ("\n" + tail) == "\n" + tail;
      CloseFreeAfterPlain("\n", tail);
    } else {
      assert (t + ("\n" + tail))[1..] == t[1..] + ("\n" + tail);
      ValueCloseFree(t[1..], tail);
      if CloseAt(t + ("\n" + tail)).Some? {
        AssocSeq(t, "\n", tail);
        ParamCloseStart(tail);
        CloseInside(t + "\n", tail);
        CloseBeforeNewline(t);
      }
    }
  }

  lemma ParamCloseStart(s: string)
    requires PARAM_CLOSE <= s
    ensures s != [] && s[0] == '<' && !(CALL_CLOSE <= s)
  {
    assert s[2] == 'p';
    if CALL_CLOSE <= s {
      CallCloseStart(s);
    }
  }

  lemma CloseBeforeNewline(t: string)
    requires CloseAt(t + "\n").Some?
    ensures t != [] && CloseAt(t).Some?
  {
    var w := CloseParts(t + "\n");
    ClosingEnds(w);
    EndsBeforeNewline(Closing(w), t);
    InsideText(Closing(w), t, "\n");
    CloseBuilt(w, t[|Closing(w)|..]);
  }

  lemma ClosingEnds(w: string)
    ensures Closing(w)[|Closing(w)| - 1] == '>'
  {
    var m := FUNCTION_CLOSE + w;
    assert (m + CALL_CLOSE)[|m| + |CALL_CLOSE| - 1] == CALL_CLOSE[|CALL_CLOSE| - 1];
  }

  lemma LastIsNewline(m: string, t: string)
    requires |m| == |t| + 1 && (t + "\n")[..|m|] == m
    ensures m[|m| - 1] == '\n'
  {
  }

  /** A text that does not end in a newline and begins `t` and a newline begins `t`. */
  lemma EndsBeforeNewline(m: string, t: string)
    requires m != [] && m[|m| - 1] != '\n' && |m| <= |t| + 1 && (t + "\n")[..|m|] == m
    ensures |m| <= |t|
  {
    if |m| == |t| + 1 {
      LastIsNewline(m, t);
    }
  }

  // ---- what the parser can return ---------------------------------------------------------

  /** A value read from a call body is clean: its text ends at the first closing tag
      and lies inside the body. */
  lemma ParamIsPrintable(s: string)
    requires CloseFree(s) && ParamAt(s).Some?
    ensures var p := ParamAt(s).value; PrintableEntry((p.key, p.value))
  {
    var tag := ParamTagAt(s).value;
    var after := s[tag.len..];
    var e := FindEnd(after).value;
    CloseFreeSuffix(s, tag.len);
    CloseFreePrefix(after, e);
    FindEndFree(after);
    CleanIsBoth(after[..e]);
    CleanStrip(after[..e]);
    StripTrims(after[..e]);
  }

  lemma {:induction false} ParamsArePrintable(s: string)
    requires CloseFree(s)
    ensures PrintableEntries(Params(s))
    decreases |s|
  {
    if s != [] {
      if ParamAt(s).Some? {
        var p := ParamAt(s).value;
        ParamIsPrintable(s);
        CloseFreeSuffix(s, p.len);
        ParamsArePrintable(s[p.len..]);
        assert Params(s) == [(p.key, p.value)] + Params(s[p.len..]);
      } else {
        ParamsArePrintable(s[1..]);
      }
    }
  }

  lemma {:induction false} EntriesInit(args: Args, n: nat)
    requires PrintableEntries(args) && n < |args|
    ensures PrintableEntries(args[..n]) && PrintableEntry(args[n])
  {
    if n > 0 {
      assert args[..n][1..] == args[1..][..n - 1];
      EntriesInit(args[1..], n - 1);
    }
  }

  lemma {:induction false} DictIsPrintable(pairs: Args)
    requires PrintableEntries(pairs)
    ensures Printable(Dict(pairs))
  {
    if pairs != [] {
      var n := |pairs| - 1;
      EntriesInit(pairs, n);
      DictIsPrintable(pairs[..n]);
      PutPrintable(Dict(pairs[..n]), pairs[n].0, pairs[n].1);
      PutDistinct(Dict(pairs[..n]), pairs[n].0, pairs[n].1);
    }
  }

  /** Everything the parser returns can be printed and parsed again. */
  lemma ParsedIsPrintable(body: string)
    requires CloseFree(body)
    ensures Printable(ParseArgs(body))
    ensures ParseArgs(Body(ParseArgs(body))) == ParseArgs(body)
  {
    ParamsArePrintable(body);
    DictIsPrintable(Params(body));
    ParseRendered(ParseArgs(body));
  }
}
