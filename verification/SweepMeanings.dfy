/** The errors of a converted text: those of its blocks that are no whole call, and of its
    function tags, said about the characters of the text alone. */
module SweepMeanings {
  import opened Text
  import opened Markup
  import opened Migrations
  import opened Converter
  import opened AssistantContent
  import opened CallTexts
  import opened ConvertedCalls

  // ---- blocks -----------------------------------------------------------------------------

  predicate EndTagAt(s: string, p: nat) {
    p <= |s| && "</tool_call>" <= s[p..]
  }

  /** `t` is `<tool_call>`, then a text without `</tool_call>`, then that. */
  predicate BlockIs(t: string, inside: string) {
    (forall p: nat :: p <= |inside| ==> !EndTagAt(inside, p)) && t == "<tool_call>" + (inside + "</tool_call>")
  }

  lemma FoundIsBlock(s: string) returns (inside: string)
    requires BlockAt(s).Some?
    ensures BlockIs(s[..BlockAt(s).value], inside)
  {
    var after := s[|CALL_OPEN|..];
    var i := FindEndTag(after).value;
    inside := after[..i];
    forall p: nat | p <= |inside| ensures !EndTagAt(inside, p) {
      if EndTagAt(inside, p) {
        EndTagEarlier(after, i, p);
      }
    }
    BlockCut(s, after, i);
  }

  lemma EndTagEarlier(after: string, i: nat, p: nat)
    requires i <= |after| && EndTagAt(after[..i], p)
    ensures FindEndTag(after).Some? && FindEndTag(after).value < i
  {
    assert after[p..] == after[..i][p..] + after[i..];
    FirstEndTag(after, p);
  }

  lemma BlockCut(s: string, after: string, i: nat)
    requires CALL_OPEN <= s && after == s[|CALL_OPEN|..] && i + |CALL_CLOSE| <= |after| && CALL_CLOSE <= after[i..]
    ensures s[..|CALL_OPEN| + i + |CALL_CLOSE|] == "<tool_call>" + (after[..i] + "</tool_call>")
  {
    assert after[i..][..|CALL_CLOSE|] == CALL_CLOSE;
    PrefixSplits(CALL_OPEN, s);
  }

  /** An end tag does not begin in a text without one and run into the next. */
  lemma EndTagNotAcross(inside: string, rest: string, k: nat)
    requires forall p: nat :: p <= |inside| ==> !EndTagAt(inside, p)
    requires k < |inside|
    ensures !(CALL_CLOSE <= (inside + (CALL_CLOSE + rest))[k..])
  {
    if CALL_CLOSE <= (inside + (CALL_CLOSE + rest))[k..] {
      if k + |CALL_CLOSE| <= |inside| {
        EndTagInside(inside, CALL_CLOSE + rest, k);
        assert false;
      } else {
        LtAcross(inside, rest, k);
        TagChars(|inside| - k);
        assert false;
      }
    }
  }

  lemma EndTagInside(inside: string, more: string, k: nat)
    requires k + |CALL_CLOSE| <= |inside| && CALL_CLOSE <= (inside + more)[k..]
    ensures EndTagAt(inside, k)
  {
    assert inside[k..][..|CALL_CLOSE|] == (inside + more)[k..][..|CALL_CLOSE|];
  }

  lemma LtAcross(inside: string, rest: string, k: nat)
    requires k < |inside| < k + |CALL_CLOSE| && CALL_CLOSE <= (inside + (CALL_CLOSE + rest))[k..]
    ensures CALL_CLOSE[|inside| - k] == '<'
  {
    var s, q := inside + (CALL_CLOSE + rest), |inside| - k;
    assert s[k..][q] == CALL_CLOSE[q] && s[k + q] == CALL_CLOSE[0];
  }

  lemma BlockIsFound(t: string, inside: string, rest: string)
    requires BlockIs(t, inside)
    ensures BlockAt(t + rest).Some? && BlockAt(t + rest).value == |t|
  {
    var after := inside + (CALL_CLOSE + rest);
    BlockShape(CALL_OPEN, inside, CALL_CLOSE, rest);
    Prefixed(CALL_OPEN, after);
    Prefixed(inside, CALL_CLOSE + rest);
    Prefixed(CALL_CLOSE, rest);
    FirstEndTag(after, |inside|);
    var k := FindEndTag(after).value;
    if k < |inside| {
      EndTagNotAcross(inside, rest, k);
    }
  }

  lemma BlockShape(open: string, inside: string, close: string, rest: string)
    ensures (open + (inside + close)) + rest == open + (inside + (close + rest))
  {
  }

  predicate BlockStarts(s: string, n: nat, inside: string) {
    n <= |s| && BlockIs(s[..n], inside)
  }

  ghost predicate BlockBeginsAt(s: string, p: nat) {
    p <= |s| && exists n: nat, inside :: BlockStarts(s[p..], n, inside)
  }

  ghost predicate NoBlockUpTo(s: string, n: nat) {
    forall p: nat :: p < n ==> !BlockBeginsAt(s, p)
  }

  lemma NoBlockInTail(s: string, n: nat)
    requires n < |s| && NoBlockUpTo(s, n + 1)
    ensures BlockAt(s).None? && NoBlockUpTo(s[1..], n)
  {
    assert s[0..] == s && !BlockBeginsAt(s, 0);
    if BlockAt(s).Some? {
      var inside := FoundIsBlock(s);
      assert BlockStarts(s[0..], BlockAt(s).value, inside);
    }
    forall p: nat | p < n ensures !BlockBeginsAt(s[1..], p) {
      SuffixOfTail(s, p);
      assert !BlockBeginsAt(s, p + 1);
    }
  }

  /** The pieces, in order, are the text; the parts are blocks, and none begins in a gap. */
  ghost predicate CutAtBlocks(s: string, ps: seq<Piece>)
    decreases |ps|
  {
    if ps == [] then s == ""
    else
      && ps[0].text <= s
      && (ps[0].Gap? ==> NoBlockUpTo(s, |ps[0].text|))
      && (ps[0].Part? ==> BlockIs(ps[0].text, ps[0].inside))
      && CutAtBlocks(s[|ps[0].text|..], ps[1..])
  }

  lemma {:induction false} GapHasNoBlocks(s: string, n: nat)
    requires n <= |s| && NoBlockUpTo(s, n)
    ensures Blocks(s) == Blocks(s[n..])
  {
    assert s[0..] == s;
    if n > 0 {
      NoBlockInTail(s, n - 1);
      GapHasNoBlocks(s[1..], n - 1);
      SuffixOfSuffix(s, 1, n - 1);
    }
  }

  lemma FirstBlock(s: string, t: string, inside: string)
    requires BlockIs(t, inside) && t <= s
    ensures Blocks(s) == [t] + Blocks(s[|t|..])
  {
    PrefixSplits(t, s);
    BlockIsFound(t, inside, s[|t|..]);
  }

  /** The tool may be named by a block: it is one of the profile, or one that is migrated later. */
  predicate MayBeNamed(profile: Profile, name: string) {
    name in ToolNames(profile)
    || (profile.OpenClawFull? && (name == "ls" || name == "grep" || name == "find" || name == "apply_patch"))
  }

  /** What is wrong with a block: nothing if it is a whole call; otherwise what stands between its
      tags must be read as JSON that names such a tool. */
  ghost function BlockVerdict(profile: Profile, jsonName: string -> NameRead, block: Piece): seq<string>
    requires block.Part?
  {
    if IsWholeCall(block.text) then [] else ReadVerdict(profile, jsonName(Strip(block.inside)))
  }

  ghost predicate IsWholeCall(t: string) {
    exists name, body :: CallIs(t, name, body)
  }

  function ReadVerdict(profile: Profile, read: NameRead): seq<string> {
    match read
    case Unreadable => ["malformed_tool_call_xml"]
    case Other(shown) => ["non_profile_tool:" + shown]
    case Named(name) => if MayBeNamed(profile, name) then [] else ["non_profile_tool:" + name]
  }

  lemma MigratedNames(profile: Profile, name: string)
    ensures name in ToolNames(profile) || name in Migratable(profile) <==> MayBeNamed(profile, name)
  {
  }

  lemma InsideIs(t: string, inside: string)
    requires BlockIs(t, inside) && Strip(t) == t
    ensures Inner(t) == Strip(inside)
  {
    Prefixed(CALL_OPEN, inside + CALL_CLOSE);
    Prefixed(inside, CALL_CLOSE);
  }

  lemma VerdictIs(profile: Profile, jsonName: string -> NameRead, block: Piece)
    requires block.Part? && BlockIs(block.text, block.inside)
    ensures BlockError(profile, jsonName, block.text) == BlockVerdict(profile, jsonName, block)
  {
    var t := block.text;
    BlockIsFound(t, block.inside, "");
    assert t + "" == t;
    BlockIsTrimmed(t);
    FullCallIsCall(t);
    WholeCallIff(t);
    InsideIs(t, block.inside);
    ReadVerdictIs(profile, jsonName(Inner(t)));
  }

  lemma ReadVerdictIs(profile: Profile, read: NameRead)
    ensures NameError(profile, read) == ReadVerdict(profile, read)
  {
    if read.Named? {
      MigratedNames(profile, read.name);
    }
  }

  lemma WholeCallIff(t: string)
    requires IsBlock(t)
    ensures CallAt(t).Some? <==> IsWholeCall(t)
  {
    if CallAt(t).Some? {
      CallFillsBlock(t);
      FoundIsCall(t);
      assert t[..|t|] == t;
    }
    if name, body :| CallIs(t, name, body) {
      CallIsFound(t, name, body, "");
      assert t + "" == t;
    }
  }

  ghost function BlockVerdicts(profile: Profile, jsonName: string -> NameRead, ps: seq<Piece>): seq<string> {
    if ps == [] then []
    else (if ps[0].Part? then BlockVerdict(profile, jsonName, ps[0]) else []) + BlockVerdicts(profile, jsonName, ps[1..])
  }

  lemma {:induction false} BlockErrorsAre(profile: Profile, jsonName: string -> NameRead, s: string, ps: seq<Piece>)
    requires CutAtBlocks(s, ps)
    ensures BlockErrors(profile, jsonName, Blocks(s)) == BlockVerdicts(profile, jsonName, ps)
    decreases |ps|
  {
    if ps != [] {
      var rest := s[|ps[0].text|..];
      BlockErrorsAre(profile, jsonName, rest, ps[1..]);
      if ps[0].Gap? {
        GapHasNoBlocks(s, |ps[0].text|);
        NothingFirst(BlockVerdicts(profile, jsonName, ps[1..]));
      } else {
        FirstBlock(s, ps[0].text, ps[0].inside);
        VerdictIs(profile, jsonName, ps[0]);
        FirstError(profile, jsonName, ps[0].text, Blocks(rest));
      }
    }
  }

  lemma NothingFirst(errors: seq<string>)
    ensures [] + errors == errors
  {
  }

  lemma FirstError(profile: Profile, jsonName: string -> NameRead, b: string, more: seq<string>)
    ensures BlockErrors(profile, jsonName, [b] + more) == BlockError(profile, jsonName, b) + BlockErrors(profile, jsonName, more)
  {
    assert ([b] + more)[1..] == more;
  }

  /** Every text can be cut so. */
  lemma {:induction false} BlockCutExists(s: string) returns (ps: seq<Piece>)
    ensures CutAtBlocks(s, ps)
    decreases |s|
  {
    if s == "" {
      ps := [];
    } else if BlockAt(s).Some? {
      var len := BlockAt(s).value;
      var inside := FoundIsBlock(s);
      var rest := BlockCutExists(s[len..]);
      ps := [Part(s[..len], "", inside)] + rest;
      assert ps[1..] == rest;
    } else {
      var rest := BlockCutExists(s[1..]);
      OneCharNoBlock(s);
      ps := [Gap(s[..1])] + rest;
      assert ps[1..] == rest;
    }
  }

  lemma OneCharNoBlock(s: string)
    requires BlockAt(s).None?
    ensures NoBlockUpTo(s, 1)
  {
    if BlockBeginsAt(s, 0) {
      assert s[0..] == s;
      var n: nat, inside :| BlockStarts(s, n, inside);
      CutAt(s, n);
      BlockIsFound(s[..n], inside, s[n..]);
      assert false;
    }
  }

  // ---- function tags ----------------------------------------------------------------------

  predicate TagIs(t: string, name: string) {
    IsName(name) && t == "<function=" + name + ">"
  }

  predicate TagStarts(s: string, n: nat, name: string) {
    n <= |s| && TagIs(s[..n], name)
  }

  ghost predicate TagBeginsAt(s: string, p: nat) {
    p <= |s| && exists n: nat, name :: TagStarts(s[p..], n, name)
  }

  ghost predicate NoTagUpTo(s: string, n: nat) {
    forall p: nat :: p < n ==> !TagBeginsAt(s, p)
  }

  lemma TagIsFound(t: string, name: string, rest: string)
    requires TagIs(t, name)
    ensures FunctionTagAt(t + rest).Some? && FunctionTagAt(t + rest).value.name == name
    ensures FunctionTagAt(t + rest).value.len == |t|
  {
    assert t == FunctionTag(name);
    FunctionTagBuilt(name, rest);
  }

  lemma FoundIsTag(s: string)
    requires FunctionTagAt(s).Some?
    ensures var tag := FunctionTagAt(s).value; TagIs(s[..tag.len], tag.name)
  {
    FunctionTagParts(s);
  }

  lemma NoTagInTail(s: string, n: nat)
    requires n < |s| && NoTagUpTo(s, n + 1)
    ensures FunctionTagAt(s).None? && NoTagUpTo(s[1..], n)
  {
    assert s[0..] == s && !TagBeginsAt(s, 0);
    if FunctionTagAt(s).Some? {
      FoundIsTag(s);
      assert TagStarts(s[0..], FunctionTagAt(s).value.len, FunctionTagAt(s).value.name);
    }
    forall p: nat | p < n ensures !TagBeginsAt(s[1..], p) {
      SuffixOfTail(s, p);
      assert !TagBeginsAt(s, p + 1);
    }
  }

  /** The pieces, in order, are the text; the parts are function tags, and none begins in a gap. */
  ghost predicate CutAtTags(s: string, ps: seq<Piece>)
    decreases |ps|
  {
    if ps == [] then s == ""
    else
      && ps[0].text <= s
      && (ps[0].Gap? ==> NoTagUpTo(s, |ps[0].text|))
      && (ps[0].Part? ==> TagIs(ps[0].text, ps[0].name))
      && CutAtTags(s[|ps[0].text|..], ps[1..])
  }

  /** Each tag of a tool outside the profile is an error. */
  function TagVerdicts(profile: Profile, ps: seq<Piece>): seq<string> {
    if ps == [] then []
    else
      (if ps[0].Part? && ps[0].name !in ToolNames(profile) then ["non_profile_tool:" + ps[0].name] else [])
      + TagVerdicts(profile, ps[1..])
  }

  lemma {:induction false} GapHasNoTags(s: string, n: nat)
    requires n <= |s| && NoTagUpTo(s, n)
    ensures TagNames(s) == TagNames(s[n..])
  {
    assert s[0..] == s;
    if n > 0 {
      NoTagInTail(s, n - 1);
      GapHasNoTags(s[1..], n - 1);
      SuffixOfSuffix(s, 1, n - 1);
    }
  }

  lemma FirstTag(s: string, t: string, name: string)
    requires TagIs(t, name) && t <= s
    ensures TagNames(s) == [name] + TagNames(s[|t|..])
  {
    PrefixSplits(t, s);
    TagIsFound(t, name, s[|t|..]);
  }

  lemma FirstTagError(allowed: seq<string>, name: string, more: seq<string>)
    ensures TagErrors(allowed, [name] + more)
         == (if name in allowed then [] else ["non_profile_tool:" + name]) + TagErrors(allowed, more)
  {
    assert ([name] + more)[1..] == more;
  }

  lemma {:induction false} TagErrorsAre(profile: Profile, s: string, ps: seq<Piece>)
    requires CutAtTags(s, ps)
    ensures TagErrors(ToolNames(profile), TagNames(s)) == TagVerdicts(profile, ps)
    decreases |ps|
  {
    if ps != [] {
      var rest := s[|ps[0].text|..];
      TagErrorsAre(profile, rest, ps[1..]);
      if ps[0].Gap? {
        GapHasNoTags(s, |ps[0].text|);
        NothingFirst(TagVerdicts(profile, ps[1..]));
      } else {
        FirstTag(s, ps[0].text, ps[0].name);
        FirstTagError(ToolNames(profile), ps[0].name, TagNames(rest));
      }
    }
  }

  lemma {:induction false} TagCutExists(s: string) returns (ps: seq<Piece>)
    ensures CutAtTags(s, ps)
    decreases |s|
  {
    if s == "" {
      ps := [];
    } else if FunctionTagAt(s).Some? {
      var tag := FunctionTagAt(s).value;
      FoundIsTag(s);
      var rest := TagCutExists(s[tag.len..]);
      ps := [Part(s[..tag.len], tag.name, "")] + rest;
      assert ps[1..] == rest;
    } else {
      var rest := TagCutExists(s[1..]);
      OneCharNoTag(s);
      ps := [Gap(s[..1])] + rest;
      assert ps[1..] == rest;
    }
  }

  lemma OneCharNoTag(s: string)
    requires FunctionTagAt(s).None?
    ensures NoTagUpTo(s, 1)
  {
    if TagBeginsAt(s, 0) {
      assert s[0..] == s;
      var n: nat, name :| TagStarts(s, n, name);
      CutAt(s, n);
      TagIsFound(s[..n], name, s[n..]);
      assert false;
    }
  }

  // ---- all errors -------------------------------------------------------------------------

  /** The errors of a conversion, for every cut of the text into its calls, and of the converted text
      into its blocks and into its tags: those of the refused calls, of the blocks, of the tags. */
  lemma ErrorsMean(env: Env, jsonName: string -> NameRead, s: string, calls: seq<Piece>, blocks: seq<Piece>, tags: seq<Piece>)
    requires CutAtCalls(s, calls)
    requires CutAtBlocks(Convert(env, jsonName, s).0, blocks) && CutAtTags(Convert(env, jsonName, s).0, tags)
    ensures Convert(env, jsonName, s).1
         == Refusals(env, calls) + (BlockVerdicts(env.profile, jsonName, blocks) + TagVerdicts(env.profile, tags))
  {
    var text := Convert(env, jsonName, s).0;
    var _ := ConversionMeans(env, s, calls);
    BlockErrorsAre(env.profile, jsonName, text, blocks);
    TagErrorsAre(env.profile, text, tags);
  }
}
