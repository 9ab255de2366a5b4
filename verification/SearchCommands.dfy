/** The whole commands that grep and find calls become: ripgrep if it is there, and the
    fallback otherwise. */
module SearchCommands {
  import opened Plans
  import opened Text
  import opened ToolCalls
  import opened Migrations
  import opened ShellWords
  import opened EditCalls
  import opened CommandMeanings

  // ---- a command in two branches ----------------------------------------------------------

  /** `if command -v rg >/dev/null 2>&1; then` */
  function Condition(): seq<Token> {
    [Word("if"), Word("command"), Word("-v"), Word("rg")]
    + ([Op('>'), Word("/dev/null"), Word("2"), Op('>')] + ([Op('&'), Word("1"), Op(';')] + [Word("then")]))
  }

  /** The condition, one branch, and the other. */
  function InTwoBranches(fast: seq<Token>, slow: seq<Token>): seq<Token> {
    Condition() + (fast + ([Op(';')] + ([Word("else")] + (slow + ([Op(';')] + [Word("fi")])))))
  }

  lemma PlainWordRead(w: string, rest: string)
    requires AllSafe(w) && w != [] && EndsWord(rest)
    ensures Lex(w + rest, Bare, None) == Prepend([Word(w)], Lex(rest, Bare, None))
  {
    SafeRead(w, rest, None);
    assert SoFar(None) + w == w;
    WordEnds(w, rest);
  }

  /** A word and the blank after it. */
  lemma WordAndBlank(w: string, rest: string)
    requires AllSafe(w) && w != []
    ensures Lex(w + (" " + rest), Bare, None) == Prepend([Word(w)], Lex(rest, Bare, None))
  {
    PlainWordRead(w, " " + rest);
    BlankRead(rest);
  }

  lemma FirstFour(rest: string)
    ensures Lex("if" + (" " + ("command" + (" " + ("-v" + (" " + ("rg" + (" " + rest))))))), Bare, None)
         == Prepend([Word("if"), Word("command"), Word("-v"), Word("rg")], Lex(rest, Bare, None))
  {
    var more := Lex(rest, Bare, None);
    SafeConstants();
    WordAndBlank("if", "command" + (" " + ("-v" + (" " + ("rg" + (" " + rest))))));
    WordAndBlank("command", "-v" + (" " + ("rg" + (" " + rest))));
    WordAndBlank("-v", "rg" + (" " + rest));
    WordAndBlank("rg", rest);
    PrependTwice([Word("-v")], [Word("rg")], more);
    PrependTwice([Word("command")], [Word("-v"), Word("rg")], more);
    PrependTwice([Word("if")], [Word("command"), Word("-v"), Word("rg")], more);
    assert [Word("-v")] + [Word("rg")] == [Word("-v"), Word("rg")];
    assert [Word("command")] + [Word("-v"), Word("rg")] == [Word("command"), Word("-v"), Word("rg")];
    assert [Word("if")] + [Word("command"), Word("-v"), Word("rg")] == [Word("if"), Word("command"), Word("-v"), Word("rg")];
  }

  lemma SafeConstants()
    ensures AllSafe("if") && AllSafe("command") && AllSafe("-v") && AllSafe("rg") && AllSafe("then") && AllSafe("else")
    ensures AllSafe("fi") && AllSafe("/dev/null") && AllSafe("2") && AllSafe("1") && AllSafe("head") && AllSafe("-200")
  {
  }

  lemma NextFour(rest: string)
    ensures Lex(">" + ("/dev/null" + (" " + ("2" + (">" + rest)))), Bare, None)
         == Prepend([Op('>'), Word("/dev/null"), Word("2"), Op('>')], Lex(rest, Bare, None))
  {
    var more := Lex(rest, Bare, None);
    SafeConstants();
    OpRead('>', "/dev/null" + (" " + ("2" + (">" + rest))));
    WordAndBlank("/dev/null", "2" + (">" + rest));
    PlainWordRead("2", ">" + rest);
    OpRead('>', rest);
    PrependTwice([Word("2")], [Op('>')], more);
    PrependTwice([Word("/dev/null")], [Word("2"), Op('>')], more);
    PrependTwice([Op('>')], [Word("/dev/null"), Word("2"), Op('>')], more);
    assert [Word("2")] + [Op('>')] == [Word("2"), Op('>')];
    assert [Word("/dev/null")] + [Word("2"), Op('>')] == [Word("/dev/null"), Word("2"), Op('>')];
    assert [Op('>')] + [Word("/dev/null"), Word("2"), Op('>')] == [Op('>'), Word("/dev/null"), Word("2"), Op('>')];
  }

  lemma LastFour(rest: string)
    ensures Lex("&" + ("1" + (";" + (" " + ("then" + (" " + rest))))), Bare, None)
         == Prepend([Op('&'), Word("1"), Op(';')] + [Word("then")], Lex(rest, Bare, None))
  {
    var more := Lex(rest, Bare, None);
    SafeConstants();
    OpRead('&', "1" + (";" + (" " + ("then" + (" " + rest)))));
    PlainWordRead("1", ";" + (" " + ("then" + (" " + rest))));
    OpRead(';', " " + ("then" + (" " + rest)));
    BlankRead("then" + (" " + rest));
    WordAndBlank("then", rest);
    PrependTwice([Op(';')], [Word("then")], more);
    PrependTwice([Word("1")], [Op(';')] + [Word("then")], more);
    PrependTwice([Op('&')], [Word("1")] + ([Op(';')] + [Word("then")]), more);
    assert [Op('&')] + ([Word("1")] + ([Op(';')] + [Word("then")])) == [Op('&'), Word("1"), Op(';')] + [Word("then")];
  }

  lemma ConditionText(rest: string)
    ensures "if command -v rg >/dev/null 2>&1; then " + rest
         == "if" + (" " + ("command" + (" " + ("-v" + (" " + ("rg" + (" " + (">" + ("/dev/null" + (" " + ("2" + (">"
            + ("&" + ("1" + (";" + (" " + ("then" + (" " + rest))))))))))))))))))
  {
    var third := "&" + ("1" + (";" + (" " + ("then" + (" " + rest)))));
    var second := ">" + ("/dev/null" + (" " + ("2" + (">" + third))));
    FirstFourText(second);
    NextFourText(third);
    LastFourText(rest);
    InThreeParts("if command -v rg ", ">/dev/null 2>", "&1; then ", rest);
    assert "if command -v rg >/dev/null 2>&1; then " == "if command -v rg " + ">/dev/null 2>" + "&1; then ";
  }

  lemma InThreeParts(a: string, b: string, c: string, rest: string)
    ensures (a + b + c) + rest == a + (b + (c + rest))
  {
  }

  lemma FirstFourText(rest: string)
    ensures "if command -v rg " + rest == "if" + (" " + ("command" + (" " + ("-v" + (" " + ("rg" + (" " + rest)))))))
  {
  }

  lemma NextFourText(rest: string)
    ensures ">/dev/null 2>" + rest == ">" + ("/dev/null" + (" " + ("2" + (">" + rest))))
  {
  }

  lemma LastFourText(rest: string)
    ensures "&1; then " + rest == "&" + ("1" + (";" + (" " + ("then" + (" " + rest)))))
  {
  }

  lemma ConditionRead(rest: string)
    ensures Lex("if command -v rg >/dev/null 2>&1; then " + rest, Bare, None) == Prepend(Condition(), Lex(rest, Bare, None))
  {
    var third := "&" + ("1" + (";" + (" " + ("then" + (" " + rest)))));
    var second := ">" + ("/dev/null" + (" " + ("2" + (">" + third))));
    var more := Lex(rest, Bare, None);
    ConditionText(rest);
    FirstFour(second);
    NextFour(third);
    LastFour(rest);
    PrependTwice([Op('>'), Word("/dev/null"), Word("2"), Op('>')], [Op('&'), Word("1"), Op(';')] + [Word("then")], more);
    PrependTwice([Word("if"), Word("command"), Word("-v"), Word("rg")],
                 [Op('>'), Word("/dev/null"), Word("2"), Op('>')] + ([Op('&'), Word("1"), Op(';')] + [Word("then")]), more);
  }

  /** `; else ` */
  lemma ElseRead(rest: string)
    ensures Lex("; else " + rest, Bare, None) == Prepend([Op(';')] + [Word("else")], Lex(rest, Bare, None))
  {
    SafeConstants();
    assert "; else " + rest == ";" + (" " + ("else" + (" " + rest)));
    OpRead(';', " " + ("else" + (" " + rest)));
    BlankRead("else" + (" " + rest));
    WordAndBlank("else", rest);
    PrependTwice([Op(';')], [Word("else")], Lex(rest, Bare, None));
  }

  /** `; fi` */
  lemma FiRead()
    ensures Lex("; fi", Bare, None) == Some([Op(';')] + [Word("fi")])
  {
    SafeConstants();
    assert "; fi" == ";" + (" " + ("fi" + ""));
    OpRead(';', " " + ("fi" + ""));
    BlankRead("fi" + "");
    PlainWordRead("fi", "");
    assert [Word("fi")] + [] == [Word("fi")];
  }

  /** Two branches whose texts are read as these tokens. */
  lemma BranchesRead(fast: string, slow: string, a: seq<Token>, b: seq<Token>)
    requires forall rest :: rest != "" && rest[0] == ';' ==> Lex(fast + rest, Bare, None) == Prepend(a, Lex(rest, Bare, None))
    requires forall rest :: rest != "" && rest[0] == ';' ==> Lex(slow + rest, Bare, None) == Prepend(b, Lex(rest, Bare, None))
    ensures Tokens(SearchCommand(fast, slow + "; fi")) == Some(InTwoBranches(a, b))
  {
    var tail := "; else " + (slow + "; fi");
    ConditionRead(fast + tail);
    assert tail[0] == ';' && "; fi"[0] == ';';
    assert Lex(fast + tail, Bare, None) == Prepend(a, Lex(tail, Bare, None));
    ElseRead(slow + "; fi");
    assert Lex(slow + "; fi", Bare, None) == Prepend(b, Lex("; fi", Bare, None));
    FiRead();
    BranchTokens(a, b);
  }

  lemma BranchTokens(a: seq<Token>, b: seq<Token>)
    ensures Condition() + (a + (([Op(';')] + [Word("else")]) + (b + ([Op(';')] + [Word("fi")])))) == InTwoBranches(a, b)
  {
    AssocSeq([Op(';')], [Word("else")], b + ([Op(';')] + [Word("fi")]));
  }

  // ---- grep -------------------------------------------------------------------------------

  /** A grep call becomes: if ripgrep is there, its search, otherwise grep's. Both search for
      what was asked if and only if neither operand looks like an option, up to what
      FallbackIsWantedIff says about the fallback. */
  lemma GrepMeans(env: Env, args: Args) returns (fast: seq<string>, slow: seq<string>)
    requires env.profile.OpenClawFull? && !AllSpace(TextAt(args, "pattern"))
    ensures var r := TransformArgs(env, "grep", args);
      && r.Rewritten? && r.name == "exec" && |r.args| == 1 && r.args[0].0 == "command"
      && Tokens(r.args[0].1) == Some(InTwoBranches(AsWords(fast), AsWords(slow)))
    ensures ReadRg(fast) == Some(Wanted(env, args)) <==>
      !LooksLikeOption(TextAt(args, "pattern")) && !LooksLikeOption(WantedPath(args))
    ensures ReadGrep(slow).Some? && FallbackOf(env, args, ReadGrep(slow).value) <==>
      !LooksLikeOption(TextAt(args, "pattern")) && !LooksLikeOption(WantedPath(args))
  {
    var pattern := TextAt(args, "pattern");
    fast, slow := RgParts(env, args, pattern), GrepParts(env, args, pattern);
    StripOfBlank(pattern);
    NotLs("grep");
    assert GetOr(args, "pattern", "") == pattern;
    assert TransformArgs(env, "grep", args) == Command(GrepCommand(env, args, pattern));
    GrepTokens(env, args, pattern);
    RgReads(env, args);
    GrepReads(env, args);
  }

  lemma NotLs(name: string)
    requires name == "grep" || name == "find" || name == "apply_patch"
    ensures name != "ls" && (name == "find" ==> name != "grep") && (name == "apply_patch" ==> name != "grep" && name != "find")
  {
    assert name[0] == 'g' || name[0] == 'f' || name[0] == 'a';
  }

  lemma GrepTokens(env: Env, args: Args, pattern: string)
    ensures Tokens(GrepCommand(env, args, pattern))
         == Some(InTwoBranches(AsWords(RgParts(env, args, pattern)), AsWords(GrepParts(env, args, pattern))))
  {
    var fast, slow := RgParts(env, args, pattern), GrepParts(env, args, pattern);
    forall rest | rest != "" && rest[0] == ';'
      ensures Lex((ShellJoin(fast) + "") + rest, Bare, None) == Prepend(AsWords(fast), Lex(rest, Bare, None))
      ensures Lex(ShellJoin(slow) + rest, Bare, None) == Prepend(AsWords(slow), Lex(rest, Bare, None))
    {
      assert ShellJoin(fast) + "" == ShellJoin(fast);
      JoinRead(fast, rest);
      JoinRead(slow, rest);
    }
    BranchesRead(ShellJoin(fast) + "", ShellJoin(slow), AsWords(fast), AsWords(slow));
  }

  // ---- find -------------------------------------------------------------------------------

  /** `| head -200` */
  function FirstLines(): seq<Token> { [Op('|')] + ([Word("head")] + [Word("-200")]) }

  /** `2>/dev/null` */
  function NoErrors(): seq<Token> { [Word("2")] + ([Op('>')] + [Word("/dev/null")]) }

  lemma HeadRead(rest: string)
    requires EndsWord(rest)
    ensures Lex(" | head -200" + rest, Bare, None) == Prepend(FirstLines(), Lex(rest, Bare, None))
  {
    var more := Lex(rest, Bare, None);
    SafeConstants();
    assert " | head -200" + rest == " " + ("|" + (" " + ("head" + (" " + ("-200" + rest)))));
    BlankRead("|" + (" " + ("head" + (" " + ("-200" + rest)))));
    OpRead('|', " " + ("head" + (" " + ("-200" + rest))));
    BlankRead("head" + (" " + ("-200" + rest)));
    WordAndBlank("head", "-200" + rest);
    PlainWordRead("-200", rest);
    PrependTwice([Word("head")], [Word("-200")], more);
    PrependTwice([Op('|')], [Word("head")] + [Word("-200")], more);
  }

  lemma NoErrorsRead(rest: string)
    requires EndsWord(rest)
    ensures Lex(" 2>/dev/null" + rest, Bare, None) == Prepend(NoErrors(), Lex(rest, Bare, None))
  {
    var more := Lex(rest, Bare, None);
    SafeConstants();
    assert " 2>/dev/null" + rest == " " + ("2" + (">" + ("/dev/null" + rest)));
    BlankRead("2" + (">" + ("/dev/null" + rest)));
    PlainWordRead("2", ">" + ("/dev/null" + rest));
    OpRead('>', "/dev/null" + rest);
    PlainWordRead("/dev/null", rest);
    PrependTwice([Op('>')], [Word("/dev/null")], more);
    PrependTwice([Word("2")], [Op('>')] + [Word("/dev/null")], more);
  }

  lemma FastRead(parts: seq<string>, rest: string)
    requires parts != [] && EndsWord(rest)
    ensures Lex((ShellJoin(parts) + " | head -200") + rest, Bare, None)
         == Prepend(AsWords(parts) + FirstLines(), Lex(rest, Bare, None))
  {
    AssocSeq(ShellJoin(parts), " | head -200", rest);
    JoinRead(parts, " | head -200" + rest);
    HeadRead(rest);
    PrependTwice(AsWords(parts), FirstLines(), Lex(rest, Bare, None));
  }

  lemma SlowRead(parts: seq<string>, rest: string)
    requires parts != [] && EndsWord(rest)
    ensures Lex((ShellJoin(parts) + (" 2>/dev/null" + " | head -200")) + rest, Bare, None)
         == Prepend(AsWords(parts) + (NoErrors() + FirstLines()), Lex(rest, Bare, None))
  {
    AssocSeq(ShellJoin(parts), " 2>/dev/null" + " | head -200", rest);
    AssocSeq(" 2>/dev/null", " | head -200", rest);
    JoinRead(parts, " 2>/dev/null" + (" | head -200" + rest));
    NoErrorsRead(" | head -200" + rest);
    HeadRead(rest);
    PrependTwice(NoErrors(), FirstLines(), Lex(rest, Bare, None));
    PrependTwice(AsWords(parts), NoErrors() + FirstLines(), Lex(rest, Bare, None));
  }

  lemma QuietText(joined: string)
    ensures joined + QUIET == (joined + (" 2>/dev/null" + " | head -200")) + "; fi"
  {
  }

  lemma FindTokens(fast: seq<string>, slow: seq<string>)
    requires fast != [] && slow != []
    ensures Tokens(SearchCommand(ShellJoin(fast) + HEAD, ShellJoin(slow) + QUIET))
         == Some(InTwoBranches(AsWords(fast) + FirstLines(), AsWords(slow) + (NoErrors() + FirstLines())))
  {
    var second := ShellJoin(slow) + (" 2>/dev/null" + " | head -200");
    forall rest | rest != "" && rest[0] == ';'
      ensures Lex((ShellJoin(fast) + HEAD) + rest, Bare, None) == Prepend(AsWords(fast) + FirstLines(), Lex(rest, Bare, None))
      ensures Lex(second + rest, Bare, None) == Prepend(AsWords(slow) + (NoErrors() + FirstLines()), Lex(rest, Bare, None))
    {
      FastRead(fast, rest);
      SlowRead(slow, rest);
    }
    QuietText(ShellJoin(slow));
    BranchesRead(ShellJoin(fast) + HEAD, second, AsWords(fast) + FirstLines(), AsWords(slow) + (NoErrors() + FirstLines()));
  }

  /** A find call becomes: if ripgrep is there, its list of the files under the path that the
      glob admits, otherwise find's list of the files whose name matches what follows the last
      slash of the pattern; two hundred lines of either. */
  lemma FindMeans(env: Env, args: Args) returns (base: string)
    requires env.profile.OpenClawFull? && !AllSpace(TextAt(args, "pattern"))
    ensures IsBase(TextAt(args, "pattern"), base)
    ensures var r := TransformArgs(env, "find", args);
      && r.Rewritten? && r.name == "exec" && |r.args| == 1 && r.args[0].0 == "command"
      && Tokens(r.args[0].1) == Some(InTwoBranches(
           AsWords(["rg", "--files", WantedPath(args), "-g", TextAt(args, "pattern")])
             + ([Op('|')] + ([Word("head")] + [Word("-200")])),
           AsWords(["find", WantedPath(args), "-type", "f", "-name", base])
             + (([Word("2")] + ([Op('>')] + [Word("/dev/null")])) + ([Op('|')] + ([Word("head")] + [Word("-200")])))))
  {
    var pattern, path := TextAt(args, "pattern"), WantedPath(args);
    base := BaseName(pattern);
    BaseIs(pattern);
    StripOfBlank(pattern);
    NotLs("find");
    assert GetOr(args, "pattern", "") == pattern;
    assert TransformArgs(env, "find", args) == Command(FindCommand(args, pattern));
    FindTokens(FindFast(path, pattern), FindSlow(path, base));
    FindWords(path, pattern, base);
  }

  lemma FindWords(path: string, pattern: string, base: string)
    ensures FindFast(path, pattern) == ["rg", "--files", path, "-g", pattern]
    ensures FindSlow(path, base) == ["find", path, "-type", "f", "-name", base]
  {
  }
}
