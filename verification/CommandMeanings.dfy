/** What the shell commands of migrated calls do, read off their words: `ls`, and the
    searches by ripgrep with grep or find as a fallback. */
module CommandMeanings {
  import opened Plans
  import opened Text
  import opened ToolCalls
  import opened Migrations
  import opened ShellWords
  import opened EditCalls

  // ---- yes and no -------------------------------------------------------------------------

  /** The same text but for the case of ASCII letters; `b` is in lower case. */
  predicate SameIgnoringCase(a: string, b: string) {
    |a| == |b| && forall i :: 0 <= i < |a| ==> a[i] == b[i] || ('a' <= b[i] <= 'z' && (a[i] as int) + 32 == b[i] as int)
  }

  /** The argument is there and says yes. */
  predicate SaysYes(args: Args, key: string) {
    var v := Strip(TextAt(args, key));
    SameIgnoringCase(v, "1") || SameIgnoringCase(v, "true") || SameIgnoringCase(v, "yes")
    || SameIgnoringCase(v, "y") || SameIgnoringCase(v, "on")
  }

  lemma LowerIs(a: string, b: string)
    requires forall i :: 0 <= i < |b| ==> !('A' <= b[i] <= 'Z')
    ensures Lower(a) == b <==> SameIgnoringCase(a, b)
  {
    if Lower(a) == b {
      forall i | 0 <= i < |a| ensures a[i] == b[i] || ('a' <= b[i] <= 'z' && (a[i] as int) + 32 == b[i] as int) {
        assert Lower(a)[i] == b[i];
      }
    }
    if SameIgnoringCase(a, b) {
      forall i | 0 <= i < |a| ensures Lower(a)[i] == b[i] {}
    }
  }

  lemma YesWords(v: string)
    ensures Lower(v) in ["1", "true", "yes", "y", "on"] <==>
      SameIgnoringCase(v, "1") || SameIgnoringCase(v, "true") || SameIgnoringCase(v, "yes")
      || SameIgnoringCase(v, "y") || SameIgnoringCase(v, "on")
  {
    LowerIs(v, "1");
    LowerIs(v, "true");
    LowerIs(v, "yes");
    LowerIs(v, "y");
    LowerIs(v, "on");
  }

  lemma TruthyMeans(args: Args, key: string)
    ensures Truthy(Get(args, key)) <==> SaysYes(args, key)
  {
    YesWords(Strip(TextAt(args, key)));
    if Get(args, key).None? {
      assert Strip("") == "";
    }
  }

  // ---- ls ---------------------------------------------------------------------------------

  /** The path asked for, or the current directory. */
  function WantedPath(args: Args): string {
    if TextAt(args, "path") == "" then "." else TextAt(args, "path")
  }

  /** An `ls` call becomes the command whose words are ls, a flag and the path. */
  lemma LsMeans(env: Env, args: Args)
    requires env.profile.OpenClawFull?
    ensures var r := TransformArgs(env, "ls", args);
      && r.Rewritten? && r.name == "exec" && |r.args| == 1 && r.args[0].0 == "command"
      && Tokens(r.args[0].1) == Some([Word("ls"), Word(if SaysYes(args, "all") then "-la" else "-l"), Word(WantedPath(args))])
  {
    var flag := if SaysYes(args, "all") then "-la" else "-l";
    var parts := ["ls", flag, WantedPath(args)];
    TruthyMeans(args, "all");
    assert GetOr(args, "path", ".") == WantedPath(args);
    assert LsCommand(args) == ShellJoin(parts);
    assert TransformArgs(env, "ls", args) == Command(ShellJoin(parts));
    WholeJoinRead(parts);
    ThreeWords("ls", flag, WantedPath(args));
  }

  lemma ThreeWords(a: string, b: string, c: string)
    ensures AsWords([a, b, c]) == [Word(a), Word(b), Word(c)]
  {
    assert [a, b, c][1..] == [b, c] && [b, c][1..] == [c];
    assert AsWords([c]) == [Word(c)];
    assert AsWords([b, c]) == [Word(b), Word(c)];
  }

  // ---- numbers ----------------------------------------------------------------------------

  function ReadNumber(s: string): Option<nat> {
    if s == [] then None
    else if !('0' <= s[|s| - 1] <= '9') then None
    else
      var d := (s[|s| - 1] as int) - ('0' as int);
      if |s| == 1 then Some(d)
      else
        match ReadNumber(s[..|s| - 1])
        case None => None
        case Some(n) => Some(n * 10 + d)
  }

  lemma {:induction false} DecimalRead(n: nat)
    ensures ReadNumber(Decimal(n)) == Some(n)
  {
    DecimalSplits(n);
    DigitRead(n % 10);
    if n >= 10 {
      DecimalRead(n / 10);
    }
  }

  lemma DigitRead(d: nat)
    requires d < 10
    ensures '0' <= Digit(d) <= '9' && (Digit(d) as int) - ('0' as int) == d
  {
  }

  // ---- reading the options of ripgrep and grep --------------------------------------------

  datatype Mode = FileNames | Counts | MatchingLines

  /** What a search looks for and what it prints. */
  datatype Search = Search(pattern: string, path: string, ignoreCase: bool, mode: Mode, context: Option<nat>, glob: Option<string>)

  /** What has been read of a command line; `operands` are the words that are no options. */
  datatype Draft = Draft(ignoreCase: bool, mode: Mode, context: Option<nat>, glob: Option<string>, operands: seq<string>)

  predicate LooksLikeOption(w: string) { |w| > 1 && w[0] == '-' }

  function ReadRgWords(words: seq<string>, d: Draft): Option<Draft>
    decreases |words|
  {
    if words == [] then Some(d)
    else
      var w, rest := words[0], words[1..];
      if !LooksLikeOption(w) then ReadRgWords(rest, d.(operands := d.operands + [w]))
      else if w == "-i" then ReadRgWords(rest, d.(ignoreCase := true))
      else if w == "-l" then ReadRgWords(rest, d.(mode := FileNames))
      else if w == "-c" then ReadRgWords(rest, d.(mode := Counts))
      else if rest == [] then None
      else if w == "-C" then
        if ReadNumber(rest[0]).Some? then ReadRgWords(rest[1..], d.(context := ReadNumber(rest[0]))) else None
      else if w == "-g" then ReadRgWords(rest[1..], d.(glob := Some(rest[0])))
      else None
  }

  function ReadGrepWords(words: seq<string>, d: Draft): Option<Draft>
    decreases |words|
  {
    if words == [] then Some(d)
    else
      var w, rest := words[0], words[1..];
      if !LooksLikeOption(w) then ReadGrepWords(rest, d.(operands := d.operands + [w]))
      else if w == "-i" then ReadGrepWords(rest, d.(ignoreCase := true))
      else if w == "-RIl" then ReadGrepWords(rest, d.(mode := FileNames))
      else if w == "-RIc" then ReadGrepWords(rest, d.(mode := Counts))
      else if w == "-RIn" then ReadGrepWords(rest, d.(mode := MatchingLines))
      else if "--include=" <= w then ReadGrepWords(rest, d.(glob := Some(w[|"--include="|..])))
      else if rest == [] then None
      else if w == "-C" then
        if ReadNumber(rest[0]).Some? then ReadGrepWords(rest[1..], d.(context := ReadNumber(rest[0]))) else None
      else None
  }

  function AsSearch(d: Option<Draft>): Option<Search> {
    if d.Some? && |d.value.operands| == 2
    then Some(Search(d.value.operands[0], d.value.operands[1], d.value.ignoreCase, d.value.mode, d.value.context, d.value.glob))
    else None
  }

  const NOTHING_READ := Draft(false, MatchingLines, None, None, [])

  function ReadRg(words: seq<string>): Option<Search> {
    if words == [] || words[0] != "rg" then None else AsSearch(ReadRgWords(words[1..], NOTHING_READ))
  }

  function ReadGrep(words: seq<string>): Option<Search> {
    if words == [] || words[0] != "grep" then None else AsSearch(ReadGrepWords(words[1..], NOTHING_READ))
  }

  // ---- the search asked for ---------------------------------------------------------------

  function WantedMode(args: Args): Mode {
    var mode := TextAt(args, "output_mode");
    if mode == "" || mode == "files_with_matches" then FileNames else if mode == "count" then Counts else MatchingLines
  }

  function WantedContext(env: Env, args: Args): Option<nat> {
    if TextAt(args, "output_mode") != "content" || Get(args, "context_lines").None? then None
    else
      match env.toInt(Get(args, "context_lines").value)
      case None => None
      case Some(n) => if n > 0 then Some(n) else None
  }

  function WantedGlob(args: Args): Option<string> {
    if AllSpace(TextAt(args, "glob")) then None else Some(TextAt(args, "glob"))
  }

  function Wanted(env: Env, args: Args): Search {
    Search(TextAt(args, "pattern"), WantedPath(args), SaysYes(args, "case_insensitive"), WantedMode(args),
           WantedContext(env, args), WantedGlob(args))
  }

  /** `b` is what follows the last slash of `s`, or all of `s` if that is nothing. */
  predicate IsBase(s: string, b: string) {
    if s == "" || s[|s| - 1] == '/' || '/' !in s then b == s
    else b != "" && '/' !in b && |b| < |s| && s[|s| - |b|..] == b && s[|s| - |b| - 1] == '/'
  }

  lemma {:induction false} NoSlashIn(s: string, i: nat)
    requires |s| - |LastSegment(s)| <= i < |s|
    ensures s[i] != '/'
  {
    if i > 0 {
      NoSlashIn(s[1..], i - 1);
    }
  }

  lemma {:induction false} SlashBefore(s: string)
    requires |LastSegment(s)| < |s|
    ensures s[|s| - |LastSegment(s)| - 1] == '/'
  {
    if |LastSegment(s[1..])| < |s| - 1 {
      SlashBefore(s[1..]);
    }
  }

  lemma BaseIs(s: string)
    ensures IsBase(s, BaseName(s))
  {
    var r := LastSegment(s);
    var n := |s| - |r|;
    forall i | n <= i < |s| ensures s[i] != '/' {
      NoSlashIn(s, i);
    }
    if n > 0 {
      SlashBefore(s);
    }
    TailIsBase(s, r, n);
  }

  lemma TailIsBase(s: string, r: string, n: nat)
    requires n <= |s| && r == s[n..] && (n > 0 ==> s[n - 1] == '/') && forall i :: n <= i < |s| ==> s[i] != '/'
    ensures IsBase(s, OrElse(r, s))
  {
    if n == 0 {
      assert s[0..] == s;
    }
  }

  // ---- the words of a search --------------------------------------------------------------

  lemma OneRg(w: string, rest: seq<string>, d: Draft)
    ensures w == "-i" ==> ReadRgWords([w] + rest, d) == ReadRgWords(rest, d.(ignoreCase := true))
    ensures w == "-l" ==> ReadRgWords([w] + rest, d) == ReadRgWords(rest, d.(mode := FileNames))
    ensures w == "-c" ==> ReadRgWords([w] + rest, d) == ReadRgWords(rest, d.(mode := Counts))
  {
    assert ([w] + rest)[1..] == rest;
  }

  lemma ContextRg(n: nat, rest: seq<string>, d: Draft)
    ensures ReadRgWords(["-C", Decimal(n)] + rest, d) == ReadRgWords(rest, d.(context := Some(n)))
  {
    var words := ["-C", Decimal(n)] + rest;
    assert words[1..] == [Decimal(n)] + rest && ([Decimal(n)] + rest)[1..] == rest;
    DecimalRead(n);
  }

  lemma GlobRg(glob: string, rest: seq<string>, d: Draft)
    ensures ReadRgWords(["-g", glob] + rest, d) == ReadRgWords(rest, d.(glob := Some(glob)))
  {
    var words := ["-g", glob] + rest;
    assert words[1..] == [glob] + rest && ([glob] + rest)[1..] == rest;
  }

  lemma OneGrep(w: string, rest: seq<string>, d: Draft)
    ensures w == "-i" ==> ReadGrepWords([w] + rest, d) == ReadGrepWords(rest, d.(ignoreCase := true))
    ensures w == "-RIl" ==> ReadGrepWords([w] + rest, d) == ReadGrepWords(rest, d.(mode := FileNames))
    ensures w == "-RIc" ==> ReadGrepWords([w] + rest, d) == ReadGrepWords(rest, d.(mode := Counts))
    ensures w == "-RIn" ==> ReadGrepWords([w] + rest, d) == ReadGrepWords(rest, d.(mode := MatchingLines))
  {
    assert ([w] + rest)[1..] == rest;
  }

  lemma ContextGrep(n: nat, rest: seq<string>, d: Draft)
    ensures ReadGrepWords(["-C", Decimal(n)] + rest, d) == ReadGrepWords(rest, d.(context := Some(n)))
  {
    var words := ["-C", Decimal(n)] + rest;
    assert words[1..] == [Decimal(n)] + rest && ([Decimal(n)] + rest)[1..] == rest;
    DecimalRead(n);
  }

  lemma IncludeGrep(glob: string, rest: seq<string>, d: Draft)
    ensures ReadGrepWords(["--include=" + glob] + rest, d) == ReadGrepWords(rest, d.(glob := Some(glob)))
  {
    var w := "--include=" + glob;
    assert ([w] + rest)[1..] == rest;
    assert w[0] == '-' && w[1] == '-' && w[|"--include="|..] == glob;
    IncludeIsOther(w);
  }

  lemma IncludeIsOther(w: string)
    requires |w| > 1 && w[1] == '-'
    ensures w != "-i" && w != "-RIl" && w != "-RIc" && w != "-RIn"
  {
  }

  /** The last two words are the pattern and the path exactly if neither looks like an option. */
  lemma OperandsRg(pattern: string, path: string, d: Draft)
    requires d.operands == []
    ensures var r := ReadRgWords([pattern, path], d);
      if LooksLikeOption(pattern) || LooksLikeOption(path) then r.None? || |r.value.operands| < 2
      else r == Some(d.(operands := [pattern, path]))
  {
    assert [pattern, path][1..] == [path] && [path][1..] == [];
    OneOperandRg(path, d);
    OneOperandRg(path, d.(operands := [pattern]));
    OneOperandRg(path, d.(ignoreCase := true));
    OneOperandRg(path, d.(mode := FileNames));
    OneOperandRg(path, d.(mode := Counts));
    if !LooksLikeOption(pattern) {
      assert [] + [pattern] == [pattern] && [pattern] + [path] == [pattern, path];
    }
  }

  lemma OneOperandRg(path: string, d: Draft)
    ensures var r := ReadRgWords([path], d);
      if LooksLikeOption(path) then r.None? || r.value.operands == d.operands else r == Some(d.(operands := d.operands + [path]))
  {
    assert [path][1..] == [];
  }

  lemma OperandsGrep(pattern: string, path: string, d: Draft)
    requires d.operands == []
    ensures var r := ReadGrepWords([pattern, path], d);
      if LooksLikeOption(pattern) || LooksLikeOption(path) then r.None? || |r.value.operands| < 2
      else r == Some(d.(operands := [pattern, path]))
  {
    assert [pattern, path][1..] == [path] && [path][1..] == [];
    OneOperandGrep(path, d);
    OneOperandGrep(path, d.(operands := [pattern]));
    OneOperandGrep(path, d.(ignoreCase := true));
    OneOperandGrep(path, d.(mode := FileNames));
    OneOperandGrep(path, d.(mode := Counts));
    OneOperandGrep(path, d.(mode := MatchingLines));
    if "--include=" <= pattern {
      OneOperandGrep(path, d.(glob := Some(pattern[|"--include="|..])));
    }
    if !LooksLikeOption(pattern) {
      assert [] + [pattern] == [pattern] && [pattern] + [path] == [pattern, path];
    }
  }

  lemma OneOperandGrep(path: string, d: Draft)
    ensures var r := ReadGrepWords([path], d);
      if LooksLikeOption(path) then r.None? || r.value.operands == d.operands else r == Some(d.(operands := d.operands + [path]))
  {
    assert [path][1..] == [];
  }

  lemma RgIgnore(args: Args, rest: seq<string>, d: Draft)
    requires !d.ignoreCase
    ensures ReadRgWords(IgnoreCase(args) + rest, d) == ReadRgWords(rest, d.(ignoreCase := SaysYes(args, "case_insensitive")))
  {
    TruthyMeans(args, "case_insensitive");
    NothingBefore(rest);
    OneRg("-i", rest, d);
  }

  lemma NothingBefore<T>(rest: seq<T>)
    ensures [] + rest == rest
  {
  }

  lemma RgMode(args: Args, rest: seq<string>, d: Draft)
    requires d.mode == MatchingLines
    ensures var mode := OutputMode(args);
      ReadRgWords((IfThen(mode == "files_with_matches", ["-l"]) + IfThen(mode == "count", ["-c"])) + rest, d)
      == ReadRgWords(rest, d.(mode := WantedMode(args)))
  {
    var mode := OutputMode(args);
    ModesDiffer();
    NothingBefore(rest);
    OneRg("-l", rest, d);
    OneRg("-c", rest, d);
    assert (["-l"] + []) + rest == ["-l"] + rest && ([] + ["-c"]) + rest == ["-c"] + rest && ([] + []) + rest == rest;
  }

  lemma ModesDiffer()
    ensures "files_with_matches" != "count" && "files_with_matches" != "content" && "count" != "content"
  {
    assert "files_with_matches"[0] == 'f' && "count"[2] == 'u' && "content"[2] == 'n';
  }

  lemma ContextWords(env: Env, args: Args)
    ensures ContextLines(env, args, OutputMode(args)) ==
      match WantedContext(env, args) case None => [] case Some(n) => ["-C", Decimal(n)]
  {
    ModesDiffer();
  }

  lemma RgContext(env: Env, args: Args, rest: seq<string>, d: Draft)
    requires d.context == None
    ensures ReadRgWords(ContextLines(env, args, OutputMode(args)) + rest, d)
      == ReadRgWords(rest, d.(context := WantedContext(env, args)))
  {
    ContextWords(env, args);
    NothingBefore(rest);
    if WantedContext(env, args).Some? {
      ContextRg(WantedContext(env, args).value, rest, d);
    }
  }

  lemma GlobIs(args: Args)
    ensures GetOr(args, "glob", "") == TextAt(args, "glob")
    ensures Strip(TextAt(args, "glob")) != "" <==> WantedGlob(args).Some?
  {
    StripOfBlank(TextAt(args, "glob"));
  }

  lemma RgGlobRead(args: Args, rest: seq<string>, d: Draft)
    requires d.glob == None
    ensures ReadRgWords(RgGlob(GetOr(args, "glob", "")) + rest, d) == ReadRgWords(rest, d.(glob := WantedGlob(args)))
  {
    GlobIs(args);
    NothingBefore(rest);
    GlobRg(TextAt(args, "glob"), rest, d);
  }

  lemma TailRg(env: Env, args: Args, d: Draft)
    requires d.context == None && d.glob == None
    ensures ReadRgWords(GrepTail(ContextLines(env, args, OutputMode(args)), RgGlob(GetOr(args, "glob", "")),
                                 TextAt(args, "pattern"), WantedPath(args)), d)
      == ReadRgWords([TextAt(args, "pattern"), WantedPath(args)],
                     d.(context := WantedContext(env, args), glob := WantedGlob(args)))
  {
    var operands := [TextAt(args, "pattern"), WantedPath(args)];
    RgContext(env, args, RgGlob(GetOr(args, "glob", "")) + operands, d);
    RgGlobRead(args, operands, d.(context := WantedContext(env, args)));
  }

  lemma HeadRg(args: Args, rest: seq<string>)
    ensures var words := RgHead(OutputMode(args), IgnoreCase(args)) + rest;
      && words[0] == "rg"
      && ReadRgWords(words[1..], NOTHING_READ)
         == ReadRgWords(rest, NOTHING_READ.(ignoreCase := SaysYes(args, "case_insensitive"), mode := WantedMode(args)))
  {
    var mode := OutputMode(args);
    var modes := IfThen(mode == "files_with_matches", ["-l"]) + IfThen(mode == "count", ["-c"]);
    var words := RgHead(mode, IgnoreCase(args)) + rest;
    assert words[1..] == IgnoreCase(args) + (modes + rest);
    RgIgnore(args, modes + rest, NOTHING_READ);
    RgMode(args, rest, NOTHING_READ.(ignoreCase := SaysYes(args, "case_insensitive")));
  }

  /** The ripgrep command searches for what was asked if and only if neither the pattern nor
      the path looks like an option. */
  lemma RgReads(env: Env, args: Args)
    ensures ReadRg(RgParts(env, args, TextAt(args, "pattern"))) == Some(Wanted(env, args)) <==>
      !LooksLikeOption(TextAt(args, "pattern")) && !LooksLikeOption(WantedPath(args))
  {
    var tail := GrepTail(ContextLines(env, args, OutputMode(args)), RgGlob(GetOr(args, "glob", "")),
                         TextAt(args, "pattern"), WantedPath(args));
    var d := NOTHING_READ.(ignoreCase := SaysYes(args, "case_insensitive"), mode := WantedMode(args));
    assert GetOr(args, "path", ".") == WantedPath(args);
    HeadRg(args, tail);
    TailRg(env, args, d);
    OperandsRg(TextAt(args, "pattern"), WantedPath(args), d.(context := WantedContext(env, args), glob := WantedGlob(args)));
  }

  // ---- the fallback -----------------------------------------------------------------------

  /** What the grep command searches for: it forgets to ignore case unless it prints lines,
      and of the glob it keeps what follows the last slash. */
  ghost predicate FallbackOf(env: Env, args: Args, s: Search) {
    var w := Wanted(env, args);
    && s.pattern == w.pattern && s.path == w.path && s.mode == w.mode && s.context == w.context
    && s.ignoreCase == (w.ignoreCase && w.mode == MatchingLines)
    && (w.glob.None? ==> s.glob.None?)
    && (w.glob.Some? ==> s.glob.Some? && IsBase(w.glob.value, s.glob.value))
  }

  lemma GrepContext(env: Env, args: Args, rest: seq<string>, d: Draft)
    requires d.context == None
    ensures ReadGrepWords(ContextLines(env, args, OutputMode(args)) + rest, d)
      == ReadGrepWords(rest, d.(context := WantedContext(env, args)))
  {
    ContextWords(env, args);
    NothingBefore(rest);
    if WantedContext(env, args).Some? {
      ContextGrep(WantedContext(env, args).value, rest, d);
    }
  }

  /** The glob grep gets. */
  function BaseGlob(args: Args): Option<string> {
    match WantedGlob(args)
    case None => None
    case Some(glob) => Some(BaseName(glob))
  }

  lemma GrepGlobRead(args: Args, rest: seq<string>, d: Draft)
    requires d.glob == None
    ensures ReadGrepWords(GrepGlob(GetOr(args, "glob", "")) + rest, d) == ReadGrepWords(rest, d.(glob := BaseGlob(args)))
  {
    GlobIs(args);
    NothingBefore(rest);
    IncludeGrep(BaseName(TextAt(args, "glob")), rest, d);
  }

  lemma TailGrep(env: Env, args: Args, d: Draft)
    requires d.context == None && d.glob == None
    ensures ReadGrepWords(GrepTail(ContextLines(env, args, OutputMode(args)), GrepGlob(GetOr(args, "glob", "")),
                                   TextAt(args, "pattern"), WantedPath(args)), d)
      == ReadGrepWords([TextAt(args, "pattern"), WantedPath(args)],
                       d.(context := WantedContext(env, args), glob := BaseGlob(args)))
  {
    var operands := [TextAt(args, "pattern"), WantedPath(args)];
    GrepContext(env, args, GrepGlob(GetOr(args, "glob", "")) + operands, d);
    GrepGlobRead(args, operands, d.(context := WantedContext(env, args)));
  }

  lemma HeadGrep(args: Args, rest: seq<string>)
    ensures var words := GrepHead(OutputMode(args), IgnoreCase(args)) + rest;
      && words[0] == "grep"
      && ReadGrepWords(words[1..], NOTHING_READ)
         == ReadGrepWords(rest, NOTHING_READ.(ignoreCase := SaysYes(args, "case_insensitive") && WantedMode(args) == MatchingLines,
                                              mode := WantedMode(args)))
  {
    var mode := OutputMode(args);
    var words := GrepHead(mode, IgnoreCase(args)) + rest;
    ModesDiffer();
    if WantedMode(args) == FileNames {
      assert words[1..] == ["-RIl"] + rest;
      OneGrep("-RIl", rest, NOTHING_READ);
    } else if WantedMode(args) == Counts {
      assert words[1..] == ["-RIc"] + rest;
      OneGrep("-RIc", rest, NOTHING_READ);
    } else {
      assert words[1..] == ["-RIn"] + (IgnoreCase(args) + rest);
      OneGrep("-RIn", IgnoreCase(args) + rest, NOTHING_READ);
      GrepIgnore(args, rest, NOTHING_READ);
    }
  }

  lemma GrepIgnore(args: Args, rest: seq<string>, d: Draft)
    requires !d.ignoreCase
    ensures ReadGrepWords(IgnoreCase(args) + rest, d) == ReadGrepWords(rest, d.(ignoreCase := SaysYes(args, "case_insensitive")))
  {
    TruthyMeans(args, "case_insensitive");
    NothingBefore(rest);
    OneGrep("-i", rest, d);
  }

  /** What has been read of the grep command in the end. */
  lemma GrepDraft(env: Env, args: Args)
    ensures var words := GrepParts(env, args, TextAt(args, "pattern"));
      && words != [] && words[0] == "grep"
      && var r := ReadGrepWords(words[1..], NOTHING_READ);
         if LooksLikeOption(TextAt(args, "pattern")) || LooksLikeOption(WantedPath(args)) then r.None? || |r.value.operands| < 2
         else r == Some(Draft(SaysYes(args, "case_insensitive") && WantedMode(args) == MatchingLines, WantedMode(args),
                              WantedContext(env, args), BaseGlob(args), [TextAt(args, "pattern"), WantedPath(args)]))
  {
    var tail := GrepTail(ContextLines(env, args, OutputMode(args)), GrepGlob(GetOr(args, "glob", "")),
                         TextAt(args, "pattern"), WantedPath(args));
    var d := NOTHING_READ.(ignoreCase := SaysYes(args, "case_insensitive") && WantedMode(args) == MatchingLines,
                           mode := WantedMode(args));
    assert GetOr(args, "path", ".") == WantedPath(args);
    HeadGrep(args, tail);
    TailGrep(env, args, d);
    OperandsGrep(TextAt(args, "pattern"), WantedPath(args), d.(context := WantedContext(env, args), glob := BaseGlob(args)));
  }

  /** The grep command searches for that exactly if neither operand looks like an option. */
  lemma GrepReads(env: Env, args: Args)
    ensures var r := ReadGrep(GrepParts(env, args, TextAt(args, "pattern")));
      (r.Some? && FallbackOf(env, args, r.value)) <==>
        !LooksLikeOption(TextAt(args, "pattern")) && !LooksLikeOption(WantedPath(args))
  {
    GrepDraft(env, args);
    if WantedGlob(args).Some? {
      BaseIs(WantedGlob(args).value);
    }
  }

  /** The fallback is the search asked for exactly when case is not to be ignored, or lines
      are printed, and the glob has no directory part. */
  lemma FallbackIsWantedIff(env: Env, args: Args, s: Search)
    requires FallbackOf(env, args, s)
    ensures var w := Wanted(env, args);
      s == w <==>
        && (w.ignoreCase ==> w.mode == MatchingLines)
        && (w.glob.Some? ==> '/' !in w.glob.value || w.glob.value[|w.glob.value| - 1] == '/')
  {
    var w := Wanted(env, args);
    if w.glob.Some? {
      assert |w.glob.value| > 0;
    }
  }
}
