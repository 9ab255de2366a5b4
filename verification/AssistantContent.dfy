/** transform_assistant_content of convert_to_openclaw_compat.py as a whole: the calls are
    rewritten, then the `<tool_call>` blocks and the function tags of the result are checked. */
module AssistantContent {
  import opened Plans
  import opened Text
  import opened Markup
  import opened CleanText
  import opened Migrations
  import opened Converter

  /** What reading a block as JSON gives for its name: nothing, when the text is no JSON
      object or the name cannot be looked up in a set; a string; or another value, as shown. */
  datatype NameRead = Unreadable | Named(name: string) | Other(shown: string)

  /** The tools a later stage rewrites into shell commands. */
  const SHELL_MIGRATED_TOOLS := ["apply_patch", "grep", "find", "ls"]

  function Migratable(profile: Profile): seq<string> {
    if profile.Legacy11? then [] else SHELL_MIGRATED_TOOLS
  }

  // ---- the blocks -------------------------------------------------------------------------

  /** Position of the first `</tool_call>`. */
  function FindEndTag(s: string): (r: Option<nat>)
    ensures r.Some? ==> r.value + |CALL_CLOSE| <= |s| && CALL_CLOSE <= s[r.value..]
  {
    if CALL_CLOSE <= s then Some(0)
    else if s == [] then None
    else
      match FindEndTag(s[1..])
      case None => None
      case Some(i) => Some(i + 1)
  }

  /** Length of the block at the start of `s`: `<tool_call>.*?</tool_call>`. */
  function BlockAt(s: string): (r: Option<nat>)
    ensures r.Some? ==> 0 < r.value <= |s|
  {
    if !(CALL_OPEN <= s) then None
    else
      match FindEndTag(s[|CALL_OPEN|..])
      case None => None
      case Some(i) => Some(|CALL_OPEN| + i + |CALL_CLOSE|)
  }

  /** ANY_TOOL_CALL_RE.findall */
  function Blocks(s: string): seq<string>
    decreases |s|
  {
    if s == [] then []
    else
      match BlockAt(s)
      case Some(len) => [s[..len]] + Blocks(s[len..])
      case None => Blocks(s[1..])
  }

  /** TOOL_CALL_XML_RE.fullmatch: an opening, and a closing that ends where the text ends. */
  predicate FullCall(b: string) {
    OpenAt(b).Some? && exists j :: OpenAt(b).value.len <= j <= |b| && ClosesAt(b, j)
  }

  predicate ClosesAt(b: string, j: nat)
    requires j <= |b|
  {
    CloseAt(b[j..]).Some? && CloseAt(b[j..]).value == |b| - j
  }

  function WithoutOpen(s: string): string {
    if CALL_OPEN <= s then s[|CALL_OPEN|..] else s
  }

  function WithoutClose(s: string): string {
    if |CALL_CLOSE| <= |s| && s[|s| - |CALL_CLOSE|..] == CALL_CLOSE then s[..|s| - |CALL_CLOSE|] else s
  }

  /** What is read as JSON: the block without its two tags. */
  function Inner(block: string): string {
    Strip(WithoutClose(WithoutOpen(Strip(block))))
  }

  /** The check of one block that is no complete call. */
  function NameError(profile: Profile, read: NameRead): seq<string> {
    match read
    case Unreadable => ["malformed_tool_call_xml"]
    case Other(shown) => ["non_profile_tool:" + shown]
    case Named(name) =>
      if name !in ToolNames(profile) && name !in Migratable(profile) then ["non_profile_tool:" + name] else []
  }

  function BlockError(profile: Profile, jsonName: string -> NameRead, block: string): seq<string> {
    if FullCall(Strip(block)) then [] else NameError(profile, jsonName(Inner(block)))
  }

  function BlockErrors(profile: Profile, jsonName: string -> NameRead, blocks: seq<string>): seq<string> {
    if blocks == [] then []
    else BlockError(profile, jsonName, blocks[0]) + BlockErrors(profile, jsonName, blocks[1..])
  }

  /** The converted text and all errors: the calls', then the blocks', then the tags'. */
  function Convert(env: Env, jsonName: string -> NameRead, s: string): (string, seq<string>) {
    var text := Transform(env, s);
    (text, CallErrors(env, s) + (BlockErrors(env.profile, jsonName, Blocks(text))
                                 + TagErrors(ToolNames(env.profile), TagNames(text))))
  }

  /** A converted text converts to itself with the same errors. */
  lemma ConvertIsFixpoint(env: Env, jsonName: string -> NameRead, s: string)
    ensures var once := Convert(env, jsonName, s);
            var twice := Convert(env, jsonName, once.0);
            twice.0 == once.0 && twice.1 == once.1
  {
    TransformIsIdempotent(env, s);
  }

  // ---- what a block is --------------------------------------------------------------------

  predicate IsBlock(b: string) {
    BlockAt(b).Some? && BlockAt(b).value == |b|
  }

  lemma {:induction false} FirstEndTag(s: string, j: nat)
    requires j + |CALL_CLOSE| <= |s| && CALL_CLOSE <= s[j..]
    ensures FindEndTag(s).Some? && FindEndTag(s).value <= j
  {
    if j == 0 {
      assert s[0..] == s;
    } else {
      SuffixOfSuffix(s, 1, j - 1);
      FirstEndTag(s[1..], j - 1);
    }
  }

  lemma EndTagAlone(s: string)
    requires FindEndTag(s).Some?
    ensures var t := s[..FindEndTag(s).value + |CALL_CLOSE|];
            FindEndTag(t).Some? && FindEndTag(t).value == FindEndTag(s).value
  {
    var i := FindEndTag(s).value;
    var n := i + |CALL_CLOSE|;
    EndTagInPart(s, n, i);
    FirstEndTag(s[..n], i);
    var k := FindEndTag(s[..n]).value;
    EndTagOfPart(s, n, k);
    FirstEndTag(s, k);
  }

  lemma EndTagInPart(s: string, n: nat, i: nat)
    requires i + |CALL_CLOSE| <= n <= |s| && CALL_CLOSE <= s[i..]
    ensures CALL_CLOSE <= s[..n][i..]
  {
    assert s[..n][i..] == s[i..][..n - i];
  }

  lemma EndTagOfPart(s: string, n: nat, i: nat)
    requires i + |CALL_CLOSE| <= n <= |s| && CALL_CLOSE <= s[..n][i..]
    ensures CALL_CLOSE <= s[i..]
  {
    assert s[i..] == s[..n][i..] + s[n..];
  }

  lemma BlockAlone(s: string)
    requires BlockAt(s).Some?
    ensures IsBlock(s[..BlockAt(s).value])
  {
    var after, len := s[|CALL_OPEN|..], BlockAt(s).value;
    EndTagAlone(after);
    assert s[..len][|CALL_OPEN|..] == after[..len - |CALL_OPEN|];
    assert CALL_OPEN <= s[..len];
  }

  lemma {:induction false} SweptAreBlocks(s: string)
    ensures forall b :: b in Blocks(s) ==> IsBlock(b)
    decreases |s|
  {
    if s != [] {
      if BlockAt(s).Some? {
        BlockAlone(s);
        SweptAreBlocks(s[BlockAt(s).value..]);
      } else {
        SweptAreBlocks(s[1..]);
      }
    }
  }

  /** A swept block stands somewhere in the text. */
  lemma {:induction false} SweptStands(s: string, b: string) returns (q: nat)
    requires b in Blocks(s)
    ensures q + |b| <= |s| && s[q..][..|b|] == b
    decreases |s|
  {
    if BlockAt(s).Some? {
      var len := BlockAt(s).value;
      if b == s[..len] {
        q := 0;
        assert s[0..] == s;
      } else {
        assert b in Blocks(s[len..]);
        var n := SweptStands(s[len..], b);
        q := len + n;
        assert s[len..][n..] == s[q..];
      }
    } else {
      var n := SweptStands(s[1..], b);
      q := 1 + n;
      assert s[1..][n..] == s[q..];
    }
  }

  /** How far the sweep moves from the start of `s`. */
  function Advance(s: string): (n: nat)
    ensures n > 0 && (s != [] ==> n <= |s|)
  {
    match BlockAt(s)
    case Some(len) => len
    case None => 1
  }

  lemma SweptFurther(s: string, n: nat, q: nat, b: string)
    requires s != [] && n == Advance(s) && b in Blocks(s[n..]) && StandsAt(s[n..], q, b)
    ensures b in Blocks(s) && StandsAt(s, n + q, b)
  {
    SuffixOfSuffix(s, n, q);
  }

  lemma SweptFirst(s: string)
    requires BlockAt(s).Some?
    ensures s[..BlockAt(s).value] in Blocks(s) && StandsAt(s, 0, s[..BlockAt(s).value])
  {
    assert s[0..] == s;
  }

  /** No `<tool_call>` that is closed later escapes the sweep: it lies in a swept block. */
  lemma {:induction false} OpenIsSwept(s: string, p: nat, tail: string) returns (q: nat, b: string)
    requires p <= |s| && tail == s[p..] && BlockAt(tail).Some?
    ensures b in Blocks(s) && q <= p < q + |b| && StandsAt(s, q, b)
    decreases |s|
  {
    var n := Advance(s);
    if p >= n {
      TailOfRest(s, n, p, tail);
      q, b := OpenIsSwept(s[n..], p - n, tail);
      SweptFurther(s, n, q, b);
      q := n + q;
    } else {
      b := CoveredByFirst(s, p, tail);
      q := 0;
    }
  }

  lemma TailOfRest(s: string, n: nat, p: nat, tail: string)
    requires n <= p <= |s| && tail == s[p..]
    ensures tail == s[n..][p - n..]
  {
    SuffixOfSuffix(s, n, p - n);
  }

  lemma CoveredByFirst(s: string, p: nat, tail: string) returns (b: string)
    requires p < Advance(s) && p <= |s| && tail == s[p..] && BlockAt(tail).Some?
    ensures b in Blocks(s) && p < |b| && StandsAt(s, 0, b)
  {
    assert s[0..] == s;
    SweptFirst(s);
    b := s[..BlockAt(s).value];
  }

  predicate StandsAt(s: string, q: nat, b: string) {
    q + |b| <= |s| && s[q..][..|b|] == b
  }

  // ---- the full match ---------------------------------------------------------------------

  lemma BlockIsTrimmed(b: string)
    requires IsBlock(b)
    ensures Strip(b) == b
  {
    var after := b[|CALL_OPEN|..];
    var last := after[FindEndTag(after).value..];
    assert b[0] == CALL_OPEN[0];
    assert b[|b| - 1] == last[|CALL_CLOSE| - 1] == CALL_CLOSE[|CALL_CLOSE| - 1];
    StripPadded([], b, []);
    assert [] + b + [] == b;
  }

  lemma CallTextEnds(w: string, name: string, body: string, w': string)
    ensures var t := CallText(w, name, body, w');
            |CALL_OPEN| + |CALL_CLOSE| <= |t| && t[|t| - |CALL_CLOSE|..] == CALL_CLOSE
  {
    var o, f := Opening(w, name), FUNCTION_CLOSE + w';
    assert CallText(w, name, body, w') == (o + (body + f)) + CALL_CLOSE;
  }

  lemma CallTextEndsIn(t: string, len: nat, w: string, name: string, body: string, w': string)
    requires len <= |t| && t[..len] == CallText(w, name, body, w')
    ensures |CALL_OPEN| + |CALL_CLOSE| <= len && CALL_CLOSE <= t[len - |CALL_CLOSE|..]
  {
    CallTextEnds(w, name, body, w');
    EndTagOfPart(t, len, len - |CALL_CLOSE|);
  }

  lemma CallEnds(s: string) returns (e: nat)
    requires CallAt(s).Some?
    ensures |CALL_OPEN| <= e && e + |CALL_CLOSE| == CallAt(s).value.len && CALL_CLOSE <= s[e..]
  {
    var w, w' := CallParts(s);
    var call := CallAt(s).value;
    CallTextEndsIn(s, call.len, w, call.name, call.body, w');
    e := call.len - |CALL_CLOSE|;
  }

  /** A call at the start of a block ends where the block ends. */
  lemma CallFillsBlock(b: string)
    requires IsBlock(b) && CallAt(b).Some?
    ensures CallAt(b).value.len == |b|
  {
    var e := CallEnds(b);
    EndTagIsLast(b, e, b[e..]);
  }

  lemma TailOfThree(o: string, body: string, c: string)
    ensures (o + (body + c))[|o| + |body|..] == c
  {
  }

  lemma CloseWhole(w: string)
    requires AllSpace(w)
    ensures CloseAt(Closing(w)).Some? && CloseAt(Closing(w)).value == |Closing(w)|
  {
    CloseBuilt(w, []);
    assert Closing(w) + [] == Closing(w);
  }

  lemma CallTextIsFull(w: string, name: string, body: string, w': string)
    requires AllSpace(w) && IsName(name) && AllSpace(w')
    ensures FullCall(CallText(w, name, body, w'))
  {
    var o, c := Opening(w, name), Closing(w');
    OpenBuilt(w, name, body + c);
    TailOfThree(o, body, c);
    CloseWhole(w');
    assert ClosesAt(o + (body + c), |o| + |body|);
  }

  lemma CallToTheEnd(b: string)
    requires CallAt(b).Some? && CallAt(b).value.len == |b|
    ensures FullCall(b)
  {
    var w, w' := CallParts(b);
    assert b[..|b|] == b;
    CallTextIsFull(w, CallAt(b).value.name, CallAt(b).value.body, w');
  }

  lemma EndTagIsLast(b: string, e: nat, tail: string)
    requires IsBlock(b) && |CALL_OPEN| <= e && e + |CALL_CLOSE| <= |b| && tail == b[e..] && CALL_CLOSE <= tail
    ensures e + |CALL_CLOSE| == |b|
  {
    SuffixOfSuffix(b, |CALL_OPEN|, e - |CALL_OPEN|);
    FirstEndTag(b[|CALL_OPEN|..], e - |CALL_OPEN|);
  }

  /** On a swept block the full match is the match the substitution looks for. */
  lemma FullCallIsCall(b: string)
    requires IsBlock(b)
    ensures FullCall(b) <==> CallAt(b).Some?
  {
    if CallAt(b).Some? {
      CallFillsBlock(b);
      CallToTheEnd(b);
    }
    if FullCall(b) {
      var n := OpenAt(b).value.len;
      var j :| n <= j <= |b| && ClosesAt(b, j);
      ClosedSomewhere(b[n..], j - n, b[j..]);
    }
  }

  lemma ClosedSomewhere(s: string, i: nat, tail: string)
    requires i <= |s| && tail == s[i..] && CloseAt(tail).Some?
    ensures FindClose(s).Some?
  {
    FindCloseAfter(s[..i], tail);
    CutAt(s, i);
  }

  // ---- what an accepted text can hold -----------------------------------------------------

  /** The block is a call of a tool of the profile, or its JSON names a tool of the
      profile or one that is migrated later. */
  ghost predicate Acceptable(profile: Profile, jsonName: string -> NameRead, b: string) {
    if CallAt(b).Some? then CallAt(b).value.name in ToolNames(profile)
    else
      var read := jsonName(Inner(b));
      read.Named? && (read.name in ToolNames(profile) || read.name in Migratable(profile))
  }

  lemma BlockErrorIff(profile: Profile, jsonName: string -> NameRead, b: string)
    requires IsBlock(b)
    ensures BlockError(profile, jsonName, b) == []
            <==> CallAt(b).Some? || Acceptable(profile, jsonName, b)
  {
    BlockIsTrimmed(b);
    FullCallIsCall(b);
  }

  lemma {:induction false} NoBlockErrors(profile: Profile, jsonName: string -> NameRead, bs: seq<string>)
    ensures BlockErrors(profile, jsonName, bs) == [] <==> forall b :: b in bs ==> BlockError(profile, jsonName, b) == []
  {
    if bs != [] {
      NoBlockErrors(profile, jsonName, bs[1..]);
      NoneOfThree(BlockError(profile, jsonName, bs[0]), BlockErrors(profile, jsonName, bs[1..]), []);
      assert bs == [bs[0]] + bs[1..];
    }
  }

  lemma FunctionTagExtends(t: string, r: string)
    requires FunctionTagAt(t).Some?
    ensures FunctionTagAt(t + r).Some? && FunctionTagAt(t + r).value.name == FunctionTagAt(t).value.name
  {
    var tag := FunctionTagAt(t).value;
    FunctionTagParts(t);
    FunctionTagBuilt(tag.name, t[tag.len..] + r);
    assert t + r == FunctionTag(tag.name) + (t[tag.len..] + r);
  }

  lemma SuffixInText(s: string, q: nat, b: string, n: nat)
    requires StandsAt(s, q, b) && n <= |b|
    ensures s[q + n..] == b[n..] + s[q + |b|..]
  {
    assert s[q..][n..] == s[q + n..];
    assert s[q..] == b + s[q..][|b|..];
    assert s[q..][|b|..] == s[q + |b|..];
  }

  /** The tool a swept block calls is among the function tags of the text. */
  lemma BlockNameIsSwept(s: string, b: string)
    requires b in Blocks(s) && CallAt(b).Some?
    ensures CallAt(b).value.name in TagNames(s)
  {
    var q := SweptStands(s, b);
    var n := TagOfCall(b);
    SuffixInText(s, q, b, n);
    FunctionTagExtends(b[n..], s[q + |b|..]);
    NameIsSwept(s, q + n, s[q + n..], CallAt(b).value.name);
  }

  lemma NoneOfThree(a: seq<string>, b: seq<string>, c: seq<string>)
    ensures a + (b + c) == [] <==> a == [] && b == [] && c == []
  {
    assert |a + (b + c)| == |a| + |b| + |c|;
  }

  /** Exactly which texts are accepted: every call could be rewritten, every block is
      acceptable, and every function tag names a tool of the profile. */
  lemma AcceptedIff(env: Env, jsonName: string -> NameRead, s: string)
    ensures var text := Transform(env, s);
            Convert(env, jsonName, s).1 == []
            <==> && CallErrors(env, s) == []
                 && (forall b :: b in Blocks(text) ==> Acceptable(env.profile, jsonName, b))
                 && (forall n :: n in TagNames(text) ==> n in ToolNames(env.profile))
  {
    var text := Transform(env, s);
    NoneOfThree(CallErrors(env, s), BlockErrors(env.profile, jsonName, Blocks(text)),
                TagErrors(ToolNames(env.profile), TagNames(text)));
    NoBlockErrors(env.profile, jsonName, Blocks(text));
    NoTagErrors(ToolNames(env.profile), TagNames(text));
    SweptAreBlocks(text);
    forall b | b in Blocks(text)
      ensures BlockError(env.profile, jsonName, b) == [] <==> CallAt(b).Some? || Acceptable(env.profile, jsonName, b)
      ensures CallAt(b).Some? ==> CallAt(b).value.name in TagNames(text)
    {
      BlockErrorIff(env.profile, jsonName, b);
      if CallAt(b).Some? {
        BlockNameIsSwept(text, b);
      }
    }
  }

  /** An accepted text calls only tools of the profile in its XML calls, wherever they stand. */
  lemma AcceptedCallsAreAllowed(env: Env, jsonName: string -> NameRead, s: string, p: nat)
    requires Convert(env, jsonName, s).1 == []
    requires p <= |Convert(env, jsonName, s).0| && CallAt(Convert(env, jsonName, s).0[p..]).Some?
    ensures CallAt(Convert(env, jsonName, s).0[p..]).value.name in ToolNames(env.profile)
  {
    AcceptedIff(env, jsonName, s);
    CallNameIsSwept(Transform(env, s), p);
  }

  // ---- blocks that name a tool to be migrated ---------------------------------------------

  /** The tool a block names: that of its call, or that of its JSON. */
  function BlockTool(jsonName: string -> NameRead, b: string): NameRead {
    if CallAt(b).Some? then Named(CallAt(b).value.name) else jsonName(Inner(b))
  }

  ghost predicate NamesProfileTool(profile: Profile, jsonName: string -> NameRead, b: string) {
    BlockTool(jsonName, b).Named? && BlockTool(jsonName, b).name in ToolNames(profile)
  }

  /** The block's JSON names a tool that a later stage is to migrate. */
  ghost predicate NamesMigratedTool(profile: Profile, jsonName: string -> NameRead, b: string) {
    CallAt(b).None? && jsonName(Inner(b)).Named? && jsonName(Inner(b)).name in Migratable(profile)
  }

  lemma MigratableAreOutside(profile: Profile, name: string)
    requires name in Migratable(profile)
    ensures profile.OpenClawFull? && name !in ToolNames(profile)
  {
    var i :| 0 <= i < |SHELL_MIGRATED_TOOLS| && SHELL_MIGRATED_TOOLS[i] == name;
    forall j | 0 <= j < |OPENCLAW_TOOLS| ensures OPENCLAW_TOOLS[j] != name {
      DifferentTools(i, j);
    }
  }

  lemma DifferentTools(i: nat, j: nat)
    requires i < |SHELL_MIGRATED_TOOLS| && j < |OPENCLAW_TOOLS|
    ensures SHELL_MIGRATED_TOOLS[i] != OPENCLAW_TOOLS[j]
  {
    var a, b := SHELL_MIGRATED_TOOLS[i], OPENCLAW_TOOLS[j];
    assert |a| != |b| || a[0] != b[0] || a[1] != b[1] || a[2] != b[2];
  }

  lemma AcceptableNames(profile: Profile, jsonName: string -> NameRead, b: string)
    requires Acceptable(profile, jsonName, b)
    ensures NamesProfileTool(profile, jsonName, b) <==> !NamesMigratedTool(profile, jsonName, b)
  {
    if NamesMigratedTool(profile, jsonName, b) {
      MigratableAreOutside(profile, jsonName(Inner(b)).name);
    }
  }

  /** The blocks of an accepted text name only tools of the profile exactly when no block
      names, in JSON, a tool that is to be migrated. */
  lemma AcceptedToolsAreAllowedIff(env: Env, jsonName: string -> NameRead, s: string)
    requires Convert(env, jsonName, s).1 == []
    ensures var blocks := Blocks(Transform(env, s));
            (forall b :: b in blocks ==> NamesProfileTool(env.profile, jsonName, b))
            <==> (forall b :: b in blocks ==> !NamesMigratedTool(env.profile, jsonName, b))
  {
    AcceptedIff(env, jsonName, s);
    forall b | b in Blocks(Transform(env, s))
      ensures NamesProfileTool(env.profile, jsonName, b) <==> !NamesMigratedTool(env.profile, jsonName, b)
    {
      AcceptableNames(env.profile, jsonName, b);
    }
  }

  /** A JSON block. */
  function JsonBlock(raw: string): string {
    CALL_OPEN + (raw + CALL_CLOSE)
  }

  lemma {:induction false} EndTagAfterPlain(raw: string)
    requires NoLt(raw)
    ensures FindEndTag(raw + CALL_CLOSE).Some? && FindEndTag(raw + CALL_CLOSE).value == |raw|
  {
    if raw == [] {
      assert raw + CALL_CLOSE == CALL_CLOSE;
    } else {
      assert (raw + CALL_CLOSE)[1..] == raw[1..] + CALL_CLOSE;
      assert (raw + CALL_CLOSE)[0] != CALL_CLOSE[0];
      EndTagAfterPlain(raw[1..]);
    }
  }

  lemma JsonBlockIsBlock(raw: string)
    requires NoLt(raw)
    ensures IsBlock(JsonBlock(raw)) && Blocks(JsonBlock(raw)) == [JsonBlock(raw)]
  {
    var b := JsonBlock(raw);
    Prefixed(CALL_OPEN, raw + CALL_CLOSE);
    EndTagAfterPlain(raw);
    assert b[..|b|] == b && b[|b|..] == [];
  }

  lemma JsonBlockInner(raw: string)
    requires NoLt(raw)
    ensures Inner(JsonBlock(raw)) == Strip(raw)
  {
    JsonBlockIsBlock(raw);
    BlockIsTrimmed(JsonBlock(raw));
    Prefixed(CALL_OPEN, raw + CALL_CLOSE);
    Prefixed(raw, CALL_CLOSE);
  }

  lemma JsonBlockChars(raw: string, p: nat)
    requires p < |JsonBlock(raw)|
    ensures JsonBlock(raw)[p] == var at := |CALL_OPEN| + |raw|;
                                 if p < |CALL_OPEN| then CALL_OPEN[p]
                                 else if p < at then raw[p - |CALL_OPEN|]
                                 else CALL_CLOSE[p - at]
  {
  }

  lemma TagChars(i: nat)
    ensures 0 < i < |CALL_OPEN| ==> CALL_OPEN[i] != '<'
    ensures 0 < i < |CALL_CLOSE| ==> CALL_CLOSE[i] != '<'
  {
  }

  /** In a JSON block `<` stands at the start, before a `t`, and before the last slash. */
  lemma JsonBlockLt(raw: string, p: nat)
    requires NoLt(raw) && p < |JsonBlock(raw)| && JsonBlock(raw)[p] == '<'
    ensures p + 1 < |JsonBlock(raw)| && JsonBlock(raw)[p + 1] in "t/"
  {
    var at := |CALL_OPEN| + |raw|;
    JsonBlockChars(raw, p);
    TagChars(p);
    if p >= at {
      TagChars(p - at);
    }
    assert p == 0 || p == at;
    JsonBlockChars(raw, p + 1);
  }

  lemma FunctionTagBegins(s: string)
    requires FunctionTagAt(s).Some?
    ensures |s| > 1 && s[0] == '<' && s[1] == 'f'
  {
    assert s[1] == FUNCTION_OPEN[1];
  }

  lemma JsonBlockHasNoTag(raw: string, p: nat, tail: string)
    requires NoLt(raw) && p <= |JsonBlock(raw)| && tail == JsonBlock(raw)[p..]
    ensures FunctionTagAt(tail).None?
  {
    if FunctionTagAt(tail).Some? {
      FunctionTagBegins(tail);
      JsonBlockLt(raw, p);
    }
  }

  lemma JsonBlockHasNoCall(raw: string, p: nat, tail: string)
    requires NoLt(raw) && p <= |JsonBlock(raw)| && tail == JsonBlock(raw)[p..]
    ensures CallAt(tail).None?
  {
    forall n | 0 <= n <= |tail| ensures FunctionTagAt(tail[n..]).None? {
      SuffixOfSuffix(JsonBlock(raw), p, n);
      JsonBlockHasNoTag(raw, p + n, tail[n..]);
    }
    NoCallWithoutTag(tail);
  }

  lemma NoCallWithoutTag(s: string)
    requires forall n :: 0 <= n <= |s| ==> FunctionTagAt(s[n..]).None?
    ensures CallAt(s).None?
  {
    if CallAt(s).Some? {
      var n := TagOfCall(s);
    }
  }

  lemma {:induction false} NoTagsSwept(s: string)
    requires forall p :: 0 <= p <= |s| ==> FunctionTagAt(s[p..]).None?
    ensures TagNames(s) == []
  {
    if s != [] {
      assert s[0..] == s;
      forall p | 0 <= p <= |s[1..]| ensures FunctionTagAt(s[1..][p..]).None? {
        SuffixOfSuffix(s, 1, p);
      }
      NoTagsSwept(s[1..]);
    }
  }

  /** A text that is one JSON block is never changed, and it is accepted exactly when the
      JSON names a tool of the profile or one that is to be migrated. */
  lemma JsonBlockAcceptedIff(env: Env, jsonName: string -> NameRead, raw: string)
    requires NoLt(raw)
    ensures Convert(env, jsonName, JsonBlock(raw)).0 == JsonBlock(raw)
    ensures Convert(env, jsonName, JsonBlock(raw)).1 == []
            <==> Acceptable(env.profile, jsonName, JsonBlock(raw))
    ensures Acceptable(env.profile, jsonName, JsonBlock(raw))
            <==> && jsonName(Strip(raw)).Named?
                 && (|| jsonName(Strip(raw)).name in ToolNames(env.profile)
                     || jsonName(Strip(raw)).name in Migratable(env.profile))
  {
    var b := JsonBlock(raw);
    if FindCall(b).Some? {
      JsonBlockHasNoCall(raw, FindCall(b).value, b[FindCall(b).value..]);
    }
    forall p | 0 <= p <= |b| ensures FunctionTagAt(b[p..]).None? {
      JsonBlockHasNoTag(raw, p, b[p..]);
    }
    NoTagsSwept(b);
    JsonBlockIsBlock(raw);
    JsonBlockInner(raw);
    JsonBlockHasNoCall(raw, 0, b);
    AcceptedIff(env, jsonName, b);
  }

  const JSON_LS := "{\"name\": \"ls\"}"

  /** `<tool_call>{"name": "ls"}</tool_call>` goes through the full profile unchanged and
      without an error, although the profile has no tool of that name. */
  lemma JsonLsIsAccepted(env: Env, jsonName: string -> NameRead)
    requires env.profile.OpenClawFull? && jsonName(JSON_LS) == Named("ls")
    ensures Convert(env, jsonName, JsonBlock(JSON_LS)).0 == JsonBlock(JSON_LS)
    ensures Convert(env, jsonName, JsonBlock(JSON_LS)).1 == []
    ensures "ls" !in ToolNames(env.profile)
  {
    assert "ls" == SHELL_MIGRATED_TOOLS[3];
    MigratableAreOutside(env.profile, "ls");
    assert Trimmed(JSON_LS) && NoLt(JSON_LS);
    StripPadded([], JSON_LS, []);
    assert [] + JSON_LS + [] == JSON_LS;
    JsonBlockAcceptedIff(env, jsonName, JSON_LS);
  }

  // ---- the loops --------------------------------------------------------------------------

  /** The loop over `ANY_TOOL_CALL_RE.findall(transformed)`. */
  method SweepBlocks(profile: Profile, jsonName: string -> NameRead, blocks: seq<string>) returns (errors: seq<string>)
    ensures errors == BlockErrors(profile, jsonName, blocks)
  {
    errors := [];
    for n := 0 to |blocks|
      invariant errors + BlockErrors(profile, jsonName, blocks[n..]) == BlockErrors(profile, jsonName, blocks)
    {
      assert blocks[n..][1..] == blocks[n + 1..];
      var failed := CheckBlock(profile, jsonName, blocks[n]);
      AssocSeq(errors, failed, BlockErrors(profile, jsonName, blocks[n + 1..]));
      errors := errors + failed;
    }
  }

  /** The body of that loop; `Unreadable` is the exception it catches. */
  method CheckBlock(profile: Profile, jsonName: string -> NameRead, block: string) returns (errors: seq<string>)
    ensures errors == BlockError(profile, jsonName, block)
  {
    errors := [];
    if !FullCall(Strip(block)) {
      match jsonName(Inner(block)) {
        case Unreadable => errors := ["malformed_tool_call_xml"];
        case Other(shown) => errors := ["non_profile_tool:" + shown];
        case Named(name) =>
          if name !in ToolNames(profile) && name !in Migratable(profile) {
            errors := ["non_profile_tool:" + name];
          }
      }
    }
  }

  /** transform_assistant_content: `sub` with its callback, then the two sweeps. */
  method TransformAssistantContent(env: Env, jsonName: string -> NameRead, content: string)
    returns (text: string, errors: seq<string>)
    ensures text == Convert(env, jsonName, content).0 && errors == Convert(env, jsonName, content).1
  {
    text, errors := SubstituteCalls(env, content);
    var blocks := SweepBlocks(env.profile, jsonName, Blocks(text));
    var tags := SweepTags(ToolNames(env.profile), TagNames(text));
    errors := errors + (blocks + tags);
  }
}
