/** transform_tool_args of convert_to_openclaw_compat.py on the arguments of a
    parsed tool call, with shlex.quote and the JSON string encoding written out. */
module Migrations {
  import opened Plans
  import opened Text
  import opened CleanText
  import opened ToolCalls
  import opened HereDocs

  datatype Profile = OpenClawFull | Legacy11

  /** What the environment fixes: the prompt profile and Python's int(). */
  datatype Env = Env(profile: Profile, toInt: string -> Option<int>)

  const OPENCLAW_TOOLS := [
    "agents_list", "browser", "canvas", "cron", "dir_fetch", "dir_list", "edit", "exec", "file_fetch",
    "file_write", "gateway", "memory_get", "memory_search", "message", "nodes", "process", "read",
    "session_status", "sessions_history", "sessions_list", "sessions_send", "sessions_spawn",
    "sessions_yield", "subagents", "tts", "web_fetch", "web_search", "write"]

  const LEGACY_TOOLS := [
    "read", "write", "edit", "apply_patch", "grep", "find", "ls", "exec", "process", "web_fetch", "web_search"]

  /** get_default_tool_names */
  function ToolNames(profile: Profile): seq<string> {
    if profile.Legacy11? then LEGACY_TOOLS else OPENCLAW_TOOLS
  }

  // ---- escaping ---------------------------------------------------------------------------

  function EscapeAll(s: string, esc: char -> string): string {
    if s == [] then [] else esc(s[0]) + EscapeAll(s[1..], esc)
  }

  /** A character is kept, or becomes a text whose first character no mark contains
      and which has no `<`. */
  ghost predicate KeepsMarksApart(esc: char -> string) {
    forall c :: esc(c) == [c] || (esc(c) != [] && Separator(esc(c)[0]) && NoLt(esc(c)))
  }

  lemma EmptyPrefix(s: string)
    ensures [] + s == s
  {
  }

  lemma MoveChar(kept: string, s: string)
    requires s != []
    ensures (kept + [s[0]]) + s[1..] == kept + s
  {
  }

  /** An escaped character between two clean texts. */
  lemma CleanAroundEscape(kept: string, e: string, more: string)
    requires Clean(kept) && Clean(more) && e != [] && Separator(e[0]) && NoLt(e)
    ensures Clean(kept + (e + more))
  {
    CleanAfterPlain(e[1..], more);
    CleanAround(kept, e[0], e[1..] + more);
    assert [e[0]] + (e[1..] + more) == e + more;
  }

  lemma {:induction false} EscapeClean(kept: string, s: string, esc: char -> string)
    requires KeepsMarksApart(esc) && Clean(kept + s)
    ensures Clean(kept + EscapeAll(s, esc))
    decreases |s|
  {
    if s != [] {
      var more := EscapeAll(s[1..], esc);
      if esc(s[0]) == [s[0]] {
        MoveChar(kept, s);
        EscapeClean(kept + [s[0]], s[1..], esc);
        AssocSeq(kept, [s[0]], more);
      } else {
        CleanParts(kept, s);
        EmptyPrefix(s[1..]);
        EmptyPrefix(more);
        EscapeClean([], s[1..], esc);
        CleanAroundEscape(kept, esc(s[0]), more);
      }
    }
  }

  lemma CleanParts(kept: string, s: string)
    requires s != [] && Clean(kept + s)
    ensures Clean(kept) && Clean(s[1..])
  {
    CleanPrefix(kept + s, |kept|);
    assert (kept + s)[..|kept|] == kept;
    CleanSuffix(kept + s, |kept| + 1);
    assert (kept + s)[|kept| + 1..] == s[1..];
  }

  // ---- shell quoting ----------------------------------------------------------------------

  predicate SafeInShell(c: char) {
    IsNameChar(c) || c in "@%+=:,./-"
  }

  predicate AllSafe(s: string) { forall i :: 0 <= i < |s| ==> SafeInShell(s[i]) }

  function QuoteChar(c: char): string {
    if c == '\'' then "'\"'\"'" else [c]
  }

  /** shlex.quote */
  function Quote(s: string): string {
    if s == [] then "''"
    else if AllSafe(s) then s
    else "'" + EscapeAll(s, QuoteChar) + "'"
  }

  /** shell_join */
  function ShellJoin(parts: seq<string>): string {
    if parts == [] then []
    else if |parts| == 1 then Quote(parts[0])
    else Quote(parts[0]) + " " + ShellJoin(parts[1..])
  }

  /** Starts and ends with a character that is no white space. */
  predicate Solid(s: string) {
    s != [] && !IsSpace(s[0]) && !IsSpace(s[|s| - 1])
  }

  lemma SafeCharsArePlain(c: char)
    requires SafeInShell(c)
    ensures c != '<' && !IsSpace(c)
  {
  }

  lemma QuoteCharKeepsMarksApart()
    ensures KeepsMarksApart(QuoteChar)
  {
    assert Separator('\'');
  }

  lemma QuoteIsSolid(s: string)
    ensures Solid(Quote(s))
  {
    if s != [] && AllSafe(s) {
      SafeCharsArePlain(s[0]);
      SafeCharsArePlain(s[|s| - 1]);
    }
  }

  /** A clean text in quotation marks of either kind. */
  lemma QuotedClean(q: char, e: string, tail: string)
    requires Separator(q) && Clean(e) && Clean(tail)
    ensures Clean(([q] + e + [q]) + tail)
  {
    CleanAround(e, q, tail);
    CleanAfterPlain([q], e + ([q] + tail));
    assert ([q] + e + [q]) + tail == [q] + (e + ([q] + tail));
  }

  lemma EscapedClean(s: string, esc: char -> string)
    requires KeepsMarksApart(esc) && Clean(s)
    ensures Clean(EscapeAll(s, esc))
  {
    EmptyPrefix(s);
    EmptyPrefix(EscapeAll(s, esc));
    EscapeClean([], s, esc);
  }

  lemma SafeIsPlain(s: string)
    requires AllSafe(s)
    ensures NoLt(s)
  {
    forall i | 0 <= i < |s| ensures s[i] != '<' {
      SafeCharsArePlain(s[i]);
    }
  }

  lemma QuoteClean(s: string, tail: string)
    requires Clean(s) && Clean(tail)
    ensures Clean(Quote(s) + tail)
  {
    if s == [] {
      CleanAfterPlain("''", tail);
    } else if AllSafe(s) {
      SafeIsPlain(s);
      CleanAfterPlain(s, tail);
    } else {
      QuoteCharKeepsMarksApart();
      EscapedClean(s, QuoteChar);
      QuotedClean('\'', EscapeAll(s, QuoteChar), tail);
    }
  }

  predicate AllClean(parts: seq<string>) {
    parts == [] || (Clean(parts[0]) && AllClean(parts[1..]))
  }

  lemma SpaceBetween(q: string, more: string, tail: string)
    ensures (q + " " + more) + tail == q + (" " + (more + tail))
  {
  }

  lemma {:induction false} ShellJoinClean(parts: seq<string>, tail: string)
    requires AllClean(parts) && Clean(tail)
    ensures Clean(ShellJoin(parts) + tail)
  {
    if parts == [] {
      EmptyPrefix(tail);
    } else if |parts| == 1 {
      QuoteClean(parts[0], tail);
    } else {
      var q, more := Quote(parts[0]), ShellJoin(parts[1..]);
      ShellJoinClean(parts[1..], tail);
      CleanAfterPlain(" ", more + tail);
      QuoteClean(parts[0], " " + (more + tail));
      SpaceBetween(q, more, tail);
    }
  }

  lemma {:induction false} ShellJoinIsSolid(parts: seq<string>)
    requires parts != []
    ensures Solid(ShellJoin(parts))
  {
    QuoteIsSolid(parts[0]);
    if |parts| > 1 {
      ShellJoinIsSolid(parts[1..]);
    }
  }

  // ---- JSON strings -----------------------------------------------------------------------

  function HexDigit(d: nat): char
    requires d < 16
  {
    "0123456789abcdef"[d]
  }

  function JsonChar(c: char): string {
    if c == '"' then "\\\""
    else if c == '\\' then "\\\\"
    else if c == '\n' then "\\n"
    else if c == '\r' then "\\r"
    else if c == '\t' then "\\t"
    else if c == '\U{0c}' then "\\f"
    else if c == '\U{08}' then "\\b"
    else if c < ' ' then "\\u00" + [HexDigit((c as int) / 16)] + [HexDigit((c as int) % 16)]
    else [c]
  }

  /** json.dumps of a string, ensure_ascii off. */
  function JsonString(s: string): string {
    "\"" + EscapeAll(s, JsonChar) + "\""
  }

  lemma HexDigitsArePlain(d: nat)
    requires d < 16
    ensures HexDigit(d) != '<'
  {
  }

  lemma JsonCharKeepsMarksApart()
    ensures KeepsMarksApart(JsonChar)
  {
    assert Separator('\\');
    forall c: char ensures JsonChar(c) == [c] || (JsonChar(c) != [] && Separator(JsonChar(c)[0]) && NoLt(JsonChar(c))) {
      if c < ' ' {
        HexDigitsArePlain((c as int) / 16);
        HexDigitsArePlain((c as int) % 16);
      }
    }
  }

  lemma JsonStringClean(s: string, tail: string)
    requires Clean(s) && Clean(tail)
    ensures Clean(JsonString(s) + tail)
  {
    JsonCharKeepsMarksApart();
    EscapedClean(s, JsonChar);
    QuotedClean('"', EscapeAll(s, JsonChar), tail);
  }

  // ---- the migrations ---------------------------------------------------------------------

  datatype Rewrite = Rewritten(name: string, args: Args) | Rejected(error: string)

  /** `args.get(key) or default` */
  function GetOr(args: Args, key: string, default: string): string {
    match Get(args, key)
    case Some(v) => if v == [] then default else v
    case None => default
  }

  function Lower(s: string): string {
    seq(|s|, i requires 0 <= i < |s| =>
      if 'A' <= s[i] <= 'Z' then ((s[i] as int) + 32) as char else s[i])
  }

  function Truthy(v: Option<string>): bool {
    v.Some? && Lower(Strip(v.value)) in ["1", "true", "yes", "y", "on"]
  }

  function LsCommand(args: Args): string {
    ShellJoin(["ls", if Truthy(Get(args, "all")) then "-la" else "-l", GetOr(args, "path", ".")])
  }

  /** text.split("/")[-1] */
  function LastSegment(s: string): (r: string)
    ensures |r| <= |s| && s[|s| - |r|..] == r
  {
    if s == [] then []
    else
      var rest := LastSegment(s[1..]);
      if |rest| == |s| - 1 && s[0] != '/' then s else rest
  }

  function OrElse(s: string, default: string): string { if s == [] then default else s }

  function IfThen(b: bool, parts: seq<string>): seq<string> { if b then parts else [] }

  const QUIET := " 2>/dev/null | head -200; fi"

  const HEAD := " | head -200"

  function SearchCommand(fast: string, slow: string): string {
    "if command -v rg >/dev/null 2>&1; then " + (fast + ("; else " + slow))
  }

  function ContextLines(env: Env, args: Args, mode: string): seq<string> {
    match Get(args, "context_lines")
    case None => []
    case Some(v) =>
      match env.toInt(v)
      case None => []
      case Some(n) => if n > 0 && mode == "content" then ["-C", Decimal(n)] else []
  }

  function GrepHead(mode: string, ignore: seq<string>): seq<string> {
    if mode == "files_with_matches" then ["grep", "-RIl"]
    else if mode == "count" then ["grep", "-RIc"]
    else ["grep", "-RIn"] + ignore
  }

  function RgHead(mode: string, ignore: seq<string>): seq<string> {
    ["rg"] + (ignore + (IfThen(mode == "files_with_matches", ["-l"]) + IfThen(mode == "count", ["-c"])))
  }

  /** Context lines, glob, pattern and path, in the order both tools take them. */
  function GrepTail(context: seq<string>, glob: seq<string>, pattern: string, path: string): seq<string> {
    context + (glob + [pattern, path])
  }

  const FI := "; fi"

  /** text.split("/")[-1] or text */
  function BaseName(s: string): string { OrElse(LastSegment(s), s) }

  const INCLUDE := "--include="

  function RgGlob(glob: string): seq<string> {
    if Strip(glob) != [] then ["-g", glob] else []
  }

  function GrepGlob(glob: string): seq<string> {
    if Strip(glob) != [] then [INCLUDE + BaseName(glob)] else []
  }

  function IgnoreCase(args: Args): seq<string> {
    IfThen(Truthy(Get(args, "case_insensitive")), ["-i"])
  }

  function OutputMode(args: Args): string { GetOr(args, "output_mode", "files_with_matches") }

  function RgParts(env: Env, args: Args, pattern: string): seq<string> {
    RgHead(OutputMode(args), IgnoreCase(args)) +
    GrepTail(ContextLines(env, args, OutputMode(args)), RgGlob(GetOr(args, "glob", "")), pattern, GetOr(args, "path", "."))
  }

  function GrepParts(env: Env, args: Args, pattern: string): seq<string> {
    GrepHead(OutputMode(args), IgnoreCase(args)) +
    GrepTail(ContextLines(env, args, OutputMode(args)), GrepGlob(GetOr(args, "glob", "")), pattern, GetOr(args, "path", "."))
  }

  function GrepCommand(env: Env, args: Args, pattern: string): string {
    SearchCommand(ShellJoin(RgParts(env, args, pattern)) + "", ShellJoin(GrepParts(env, args, pattern)) + FI)
  }

  function FindFast(path: string, pattern: string): seq<string> {
    ["rg", "--files"] + ([path] + ["-g", pattern])
  }

  function FindSlow(path: string, name: string): seq<string> {
    ["find", path] + (["-type", "f"] + ["-name", name])
  }

  function FindCommand(args: Args, pattern: string): string {
    var path := GetOr(args, "path", ".");
    var name := BaseName(pattern);
    SearchCommand(ShellJoin(FindFast(path, pattern)) + HEAD, ShellJoin(FindSlow(path, name)) + QUIET)
  }

  function Command(text: string): Rewrite {
    Rewritten("exec", [("command", text)])
  }

  const EDIT_OPEN := "[{\"oldText\": "
  const EDIT_MIDDLE := ", \"newText\": "

  function EditEnd(all: bool): string {
    if all then ", \"replaceAll\": true}]" else "}]"
  }

  /** `[{"oldText": ..., "newText": ...}]` */
  function EditsText(old': string, new': string, all: bool): string {
    EDIT_OPEN + (JsonString(old') + (EDIT_MIDDLE + (JsonString(new') + EditEnd(all))))
  }

  function Edit(args: Args): Rewrite {
    if Has(args, "edits") then Rewritten("edit", args)
    else
      match (Get(args, "old_string"), Get(args, "new_string"))
      case (Some(o), Some(n)) =>
        Rewritten("edit", [("path", GetOr(args, "path", "")),
                           ("edits", EditsText(o, n, GetOr(args, "replace_all", "") != []))])
      case _ => Rejected("edit_unmappable")
  }

  function RenameAction(args: Args): Args {
    var action := GetOr(args, "action", "");
    if action == "read" then Put(args, "action", "log")
    else if action == "signal" then Put(args, "action", "kill")
    else args
  }

  function RenamePid(args: Args): Args {
    if Has(args, "pid") && !Has(args, "sessionId")
    then Put(Remove(args, "pid"), "sessionId", Get(args, "pid").value)
    else args
  }

  function Process(args: Args): Args {
    Remove(RenamePid(RenameAction(args)), "signal")
  }

  function OpenClawArgs(env: Env, name: string, args: Args): Rewrite {
    if name == "ls" then Command(LsCommand(args))
    else if name == "grep" then
      var pattern := GetOr(args, "pattern", "");
      if Strip(pattern) == [] then Rejected("grep_unmappable") else Command(GrepCommand(env, args, pattern))
    else if name == "find" then
      var pattern := GetOr(args, "pattern", "");
      if Strip(pattern) == [] then Rejected("find_unmappable") else Command(FindCommand(args, pattern))
    else if name == "apply_patch" then
      var patch := if Has(args, "input") then Get(args, "input").value else GetOr(args, "patch", "");
      if Strip(patch) == [] then Rejected("apply_patch_unmappable") else Command(PatchCommand(patch))
    else if name !in OPENCLAW_TOOLS then Rejected("non_openclaw_tool:" + name)
    else if name == "edit" then Edit(args)
    else if name == "process" then Rewritten("process", Process(args))
    else Rewritten(name, args)
  }

  /** transform_tool_args, argument values already printed. */
  function TransformArgs(env: Env, name: string, args: Args): Rewrite {
    match env.profile
    case Legacy11 => if name in LEGACY_TOOLS then Rewritten(name, args) else Rejected("non_profile_tool:" + name)
    case OpenClawFull => OpenClawArgs(env, name, args)
  }

  // ---- every migrated call can be printed and parsed --------------------------------------

  lemma GetOrClean(args: Args, key: string, default: string)
    requires PrintableEntries(args) && Clean(default) && Trimmed(default)
    ensures Clean(GetOr(args, key, default)) && Trimmed(GetOr(args, key, default))
  {
    if Has(args, key) {
      GetPrintable(args, key);
    }
  }

  lemma CommandPrintable(text: string)
    requires Clean(text) && Solid(text)
    ensures Printable([("command", text)])
  {
    var args: Args := [("command", text)];
    assert args[1..] == [];
    assert IsName("command");
    assert PrintableEntry(args[0]);
  }

  lemma AllCleanCons(p: string, parts: seq<string>)
    requires Clean(p) && AllClean(parts)
    ensures AllClean([p] + parts)
  {
    assert ([p] + parts)[1..] == parts;
  }

  lemma {:induction false} AllCleanConcat(a: seq<string>, b: seq<string>)
    requires AllClean(a) && AllClean(b)
    ensures AllClean(a + b)
  {
    if a == [] {
      assert a + b == b;
    } else {
      assert (a + b)[1..] == a[1..] + b;
      AllCleanConcat(a[1..], b);
    }
  }

  lemma OneClean(p: string)
    requires Clean(p)
    ensures AllClean([p])
  {
    assert [p][1..] == [];
  }

  lemma TwoClean(p: string, q: string)
    requires Clean(p) && Clean(q)
    ensures AllClean([p, q])
  {
    OneClean(q);
    AllCleanCons(p, [q]);
    assert [p] + [q] == [p, q];
  }

  lemma OnePlain(p: string)
    requires NoLt(p)
    ensures Clean(p) && AllClean([p])
  {
    PlainIsClean(p);
    OneClean(p);
  }

  lemma LsPrintable(args: Args)
    requires PrintableEntries(args)
    ensures Clean(LsCommand(args)) && Solid(LsCommand(args))
  {
    var flag, path := if Truthy(Get(args, "all")) then "-la" else "-l", GetOr(args, "path", ".");
    PlainIsClean("ls");
    PlainIsClean(flag);
    PlainIsClean(".");
    GetOrClean(args, "path", ".");
    TwoClean(flag, path);
    AllCleanCons("ls", [flag, path]);
    assert ["ls"] + [flag, path] == ["ls", flag, path];
    ShellJoinClean(["ls", flag, path], []);
    assert LsCommand(args) + [] == LsCommand(args);
    ShellJoinIsSolid(["ls", flag, path]);
  }

  lemma SearchPrintable(fast: string, slow: string)
    requires Clean(fast + ("; else " + slow)) && slow != [] && !IsSpace(slow[|slow| - 1])
    ensures Clean(SearchCommand(fast, slow)) && Solid(SearchCommand(fast, slow))
  {
    CleanAfterPlain("if command -v rg >/dev/null 2>&1; then ", fast + ("; else " + slow));
    SearchIsSolid("if command -v rg >/dev/null 2>&1; then ", fast, "; else ", slow);
  }

  lemma SearchIsSolid(head: string, fast: string, middle: string, slow: string)
    requires head != [] && !IsSpace(head[0]) && slow != [] && !IsSpace(slow[|slow| - 1])
    ensures Solid(head + (fast + (middle + slow)))
  {
    var all := head + (fast + (middle + slow));
    assert all[0] == head[0] && all[|all| - 1] == slow[|slow| - 1];
  }

  lemma LastSegmentClean(s: string)
    requires Clean(s)
    ensures Clean(BaseName(s))
  {
    CleanSuffix(s, |s| - |LastSegment(s)|);
  }

  lemma FindSlowClean(path: string, name: string)
    requires Clean(path) && Clean(name)
    ensures AllClean(FindSlow(path, name))
  {
    PlainIsClean("-type");
    PlainIsClean("f");
    PlainIsClean("-name");
    PlainIsClean("find");
    TwoClean("-name", name);
    TwoClean("-type", "f");
    TwoClean("find", path);
    AllCleanConcat(["-type", "f"], ["-name", name]);
    AllCleanConcat(["find", path], ["-type", "f"] + ["-name", name]);
  }

  lemma FindFastClean(path: string, pattern: string)
    requires Clean(path) && Clean(pattern)
    ensures AllClean(FindFast(path, pattern))
  {
    PlainIsClean("rg");
    PlainIsClean("--files");
    PlainIsClean("-g");
    TwoClean("-g", pattern);
    AllCleanCons(path, ["-g", pattern]);
    TwoClean("rg", "--files");
    AllCleanConcat(["rg", "--files"], [path] + ["-g", pattern]);
  }

  /** Both halves of a fall-back command, built from clean parts. */
  lemma FallbackClean(fast: seq<string>, cut: string, slow: seq<string>, end: string)
    requires AllClean(fast) && AllClean(slow) && NoLt(cut) && NoLt(end)
    requires end != [] && !IsSpace(end[|end| - 1])
    ensures var command := SearchCommand(ShellJoin(fast) + cut, ShellJoin(slow) + end);
            Clean(command) && Solid(command)
  {
    var tail := ShellJoin(slow) + end;
    PlainIsClean(end);
    ShellJoinClean(slow, end);
    CleanAfterPlain("; else ", tail);
    CleanAfterPlain(cut, "; else " + tail);
    ShellJoinClean(fast, cut + ("; else " + tail));
    AssocSeq(ShellJoin(fast), cut, "; else " + tail);
    assert tail[|tail| - 1] == end[|end| - 1];
    SearchPrintable(ShellJoin(fast) + cut, tail);
  }

  lemma EndsArePlain()
    ensures NoLt(QUIET) && QUIET != [] && !IsSpace(QUIET[|QUIET| - 1])
    ensures NoLt(HEAD)
  {
  }

  lemma FindPrintable(args: Args, pattern: string)
    requires PrintableEntries(args) && Clean(pattern)
    ensures Clean(FindCommand(args, pattern)) && Solid(FindCommand(args, pattern))
  {
    PlainIsClean(".");
    GetOrClean(args, "path", ".");
    FindPathPrintable(GetOr(args, "path", "."), pattern);
  }

  lemma FindPathPrintable(path: string, pattern: string)
    requires Clean(path) && Clean(pattern)
    ensures var fast, slow := FindFast(path, pattern), FindSlow(path, BaseName(pattern));
            var command := SearchCommand(ShellJoin(fast) + HEAD, ShellJoin(slow) + QUIET);
            Clean(command) && Solid(command)
  {
    LastSegmentClean(pattern);
    FindSlowClean(path, BaseName(pattern));
    FindFastClean(path, pattern);
    EndsArePlain();
    FallbackClean(FindFast(path, pattern), HEAD, FindSlow(path, BaseName(pattern)), QUIET);
  }

  lemma ContextLinesClean(env: Env, args: Args, mode: string)
    ensures AllClean(ContextLines(env, args, mode))
  {
    var r := ContextLines(env, args, mode);
    if r != [] {
      var n := env.toInt(Get(args, "context_lines").value).value;
      DecimalDigits(n);
      PlainIsClean("-C");
      PlainIsClean(Decimal(n));
      TwoClean("-C", Decimal(n));
    }
  }

  lemma GrepHeadClean(mode: string, ignore: seq<string>)
    requires AllClean(ignore)
    ensures AllClean(GrepHead(mode, ignore))
  {
    OnePlain("grep");
    OnePlain("-RIl");
    OnePlain("-RIc");
    OnePlain("-RIn");
    TwoClean("grep", "-RIl");
    TwoClean("grep", "-RIc");
    TwoClean("grep", "-RIn");
    AllCleanConcat(["grep", "-RIn"], ignore);
  }

  lemma RgHeadClean(mode: string, ignore: seq<string>)
    requires AllClean(ignore)
    ensures AllClean(RgHead(mode, ignore))
  {
    OnePlain("-l");
    OnePlain("-c");
    OnePlain("rg");
    var modes := IfThen(mode == "files_with_matches", ["-l"]) + IfThen(mode == "count", ["-c"]);
    AllCleanConcat(IfThen(mode == "files_with_matches", ["-l"]), IfThen(mode == "count", ["-c"]));
    AllCleanConcat(ignore, modes);
    AllCleanConcat(["rg"], ignore + modes);
  }

  lemma GrepTailClean(context: seq<string>, glob: seq<string>, pattern: string, path: string)
    requires AllClean(context) && AllClean(glob) && Clean(pattern) && Clean(path)
    ensures AllClean(GrepTail(context, glob, pattern, path))
  {
    TwoClean(pattern, path);
    AllCleanConcat(glob, [pattern, path]);
    AllCleanConcat(context, glob + [pattern, path]);
  }

  lemma IncludeIsPlain()
    ensures NoLt(INCLUDE)
  {
  }

  lemma GlobsClean(glob: string)
    requires Clean(glob)
    ensures AllClean(RgGlob(glob)) && AllClean(GrepGlob(glob))
  {
    PlainIsClean("-g");
    TwoClean("-g", glob);
    LastSegmentClean(glob);
    IncludeIsPlain();
    CleanAfterPlain(INCLUDE, BaseName(glob));
    OneClean(INCLUDE + BaseName(glob));
  }

  lemma GrepEndIsPlain()
    ensures NoLt(FI) && FI != [] && !IsSpace(FI[|FI| - 1])
  {
  }

  lemma GrepArgumentsClean(env: Env, args: Args)
    requires PrintableEntries(args)
    ensures Clean(GetOr(args, "path", ".")) && Clean(GetOr(args, "glob", ""))
    ensures AllClean(IgnoreCase(args)) && AllClean(ContextLines(env, args, OutputMode(args)))
  {
    PlainIsClean(".");
    GetOrClean(args, "path", ".");
    GetOrClean(args, "glob", "");
    OnePlain("-i");
    ContextLinesClean(env, args, OutputMode(args));
  }

  lemma SearchPartsClean(env: Env, args: Args, pattern: string)
    requires PrintableEntries(args) && Clean(pattern)
    ensures AllClean(RgParts(env, args, pattern)) && AllClean(GrepParts(env, args, pattern))
  {
    var path, glob := GetOr(args, "path", "."), GetOr(args, "glob", "");
    var mode, ignore := OutputMode(args), IgnoreCase(args);
    var context := ContextLines(env, args, mode);
    GrepArgumentsClean(env, args);
    GlobsClean(glob);
    GrepHeadClean(mode, ignore);
    RgHeadClean(mode, ignore);
    GrepTailClean(context, RgGlob(glob), pattern, path);
    GrepTailClean(context, GrepGlob(glob), pattern, path);
    AllCleanConcat(RgHead(mode, ignore), GrepTail(context, RgGlob(glob), pattern, path));
    AllCleanConcat(GrepHead(mode, ignore), GrepTail(context, GrepGlob(glob), pattern, path));
  }

  lemma GrepPrintable(env: Env, args: Args, pattern: string)
    requires PrintableEntries(args) && Clean(pattern)
    ensures Clean(GrepCommand(env, args, pattern)) && Solid(GrepCommand(env, args, pattern))
  {
    SearchPartsClean(env, args, pattern);
    GrepEndIsPlain();
    FallbackClean(RgParts(env, args, pattern), "", GrepParts(env, args, pattern), FI);
  }

  // ---- apply_patch ------------------------------------------------------------------------

  lemma CandidateIsPlain(k: nat)
    ensures Solid(Candidate(PATCH_BASE, k)) && NoLt(Candidate(PATCH_BASE, k))
  {
    DecimalDigits(k);
    var d := Candidate(PATCH_BASE, k);
    forall i | 0 <= i < |d| ensures d[i] != '<' && !IsSpace(d[i]) {
      if i < |PATCH_BASE| {
        assert d[i] == PATCH_BASE[i];
      }
    }
  }

  lemma HereDocClean(r: string, d: string)
    requires Clean(r) && Solid(d) && NoLt(d)
    ensures Clean((d + "'\n") + (r + "\n" + d))
  {
    CleanBeforePlain(r, "\n" + d);
    AssocSeq(r, "\n", d);
    CleanAfterPlain(d + "'\n", r + "\n" + d);
  }

  lemma PatchShape(d: string, doc: string)
    requires doc != []
    ensures "apply_patch <<'" + d + "'\n" + doc == "apply_patch <<'" + ((d + "'\n") + doc)
    ensures ("apply_patch <<'" + d + "'\n" + doc)[0] == 'a'
  {
  }

  lemma PatchPrintable(patch: string)
    requires Clean(patch)
    ensures Clean(PatchCommand(patch)) && Solid(PatchCommand(patch))
  {
    var d, r := Delimiter(patch, PATCH_BASE), RStrip(patch);
    CandidateIsPlain(FreeFrom(patch, PATCH_BASE, 0));
    CleanStrip(patch);
    HereDocClean(r, d);
    HereDocStart((d + "'\n") + HereDocBody(patch));
    PatchShape(d, HereDocBody(patch));
    var command := PatchCommand(patch);
    assert command[|command| - 1] == d[|d| - 1];
  }

  lemma HereDocStart(rest: string)
    requires Clean(rest)
    ensures Clean("apply_patch <<'" + rest)
  {
    var q := "'" + rest;
    CleanAfterPlain("'", rest);
    var one := "<" + q;
    assert one[1] == '\'' && one[1..] == q;
    if Marked(one) {
      MarkedStart(one);
    }
    var two := "<" + one;
    assert two[1] == '<' && two[1..] == one;
    if Marked(two) {
      MarkedStart(two);
    }
    CleanAfterPlain("apply_patch ", two);
    StartPieces(rest);
  }

  lemma StartPieces(rest: string)
    ensures "apply_patch <<'" + rest == "apply_patch " + ("<" + ("<" + ("'" + rest)))
  {
  }

  // ---- edit -------------------------------------------------------------------------------

  lemma EditPiecesArePlain(all: bool)
    ensures NoLt(EDIT_OPEN) && NoLt(EDIT_MIDDLE) && NoLt(EditEnd(all))
    ensures EDIT_OPEN[0] == '[' && EditEnd(all) != [] && EditEnd(all)[|EditEnd(all)| - 1] == ']'
  {
  }

  lemma EditsPrintable(o: string, n: string, all: bool)
    requires Clean(o) && Clean(n)
    ensures Clean(EditsText(o, n, all)) && Solid(EditsText(o, n, all))
  {
    var end := EditEnd(all);
    EditPiecesArePlain(all);
    PlainIsClean(end);
    JsonStringClean(n, end);
    CleanAfterPlain(EDIT_MIDDLE, JsonString(n) + end);
    JsonStringClean(o, EDIT_MIDDLE + (JsonString(n) + end));
    CleanAfterPlain(EDIT_OPEN, JsonString(o) + (EDIT_MIDDLE + (JsonString(n) + end)));
    EditsSolid(o, n, all);
  }

  lemma EditsSolid(o: string, n: string, all: bool)
    ensures Solid(EditsText(o, n, all))
  {
    var text, end := EditsText(o, n, all), EditEnd(all);
    assert text[|text| - 1] == end[|end| - 1];
    assert text[0] == EDIT_OPEN[0];
  }

  lemma TwoEntriesPrintable(a: (string, string), b: (string, string))
    requires a.0 != b.0 && PrintableEntry(a) && PrintableEntry(b)
    ensures Printable([a, b])
  {
    var args: Args := [a, b];
    assert args[1..] == [b];
    assert [b][1..] == [];
    assert Get([b], a.0) == Get([], a.0);
  }

  lemma EditPrintable(args: Args)
    requires Printable(args) && Edit(args).Rewritten?
    ensures Edit(args).name == "edit" && Printable(Edit(args).args) && Has(Edit(args).args, "edits")
  {
    if !Has(args, "edits") {
      var o, n := Get(args, "old_string").value, Get(args, "new_string").value;
      var all := GetOr(args, "replace_all", "") != [];
      GetPrintable(args, "old_string");
      GetPrintable(args, "new_string");
      GetOrClean(args, "path", "");
      EditsPrintable(o, n, all);
      NamesOfArguments();
      var path, edits := ("path", GetOr(args, "path", "")), ("edits", EditsText(o, n, all));
      TwoEntriesPrintable(path, edits);
      assert [path, edits][1..] == [edits];
      assert Get([path, edits], "edits") == Get([edits], "edits");
    }
  }

  lemma NamesOfArguments()
    ensures IsName("path") && IsName("edits") && IsName("command") && IsName("action") && IsName("sessionId")
  {
  }

  // ---- process ----------------------------------------------------------------------------

  lemma RenameActionKeeps(args: Args)
    requires Printable(args)
    ensures Printable(RenameAction(args))
    ensures GetOr(RenameAction(args), "action", "") != "read" && GetOr(RenameAction(args), "action", "") != "signal"
  {
    var action := GetOr(args, "action", "");
    NamesOfArguments();
    PlainIsClean("log");
    PlainIsClean("kill");
    if action == "read" {
      PutPrintable(args, "action", "log");
      PutDistinct(args, "action", "log");
      GetPut(args, "action", "log", "action");
    } else if action == "signal" {
      PutPrintable(args, "action", "kill");
      PutDistinct(args, "action", "kill");
      GetPut(args, "action", "kill", "action");
    }
  }

  lemma RenamePidKeeps(args: Args)
    requires Printable(args)
    ensures Printable(RenamePid(args))
    ensures Get(RenamePid(args), "action") == Get(args, "action")
    ensures !(Has(RenamePid(args), "pid") && !Has(RenamePid(args), "sessionId"))
  {
    if Has(args, "pid") && !Has(args, "sessionId") {
      var pid, less := Get(args, "pid").value, Remove(args, "pid");
      NamesOfArguments();
      GetPrintable(args, "pid");
      RemovePrintable(args, "pid");
      RemoveDistinct(args, "pid");
      PutPrintable(less, "sessionId", pid);
      PutDistinct(less, "sessionId", pid);
      GetPut(less, "sessionId", pid, "action");
      GetPut(less, "sessionId", pid, "sessionId");
      GetRemove(args, "pid", "action");
    }
  }

  /** Renaming is done once: a second pass over the arguments changes nothing. */
  lemma ProcessIsStable(args: Args)
    requires Printable(args)
    ensures Printable(Process(args))
    ensures Process(Process(args)) == Process(args)
  {
    var a1 := RenameAction(args);
    var a2 := RenamePid(a1);
    var a3 := Remove(a2, "signal");
    RenameActionKeeps(args);
    RenamePidKeeps(a1);
    RemovePrintable(a2, "signal");
    RemoveDistinct(a2, "signal");
    GetRemove(a2, "signal", "action");
    GetRemove(a2, "signal", "pid");
    GetRemove(a2, "signal", "sessionId");
    GetRemove(a2, "signal", "signal");
    assert RenameAction(a3) == a3;
    assert RenamePid(a3) == a3;
    RemoveMissing(a3, "signal");
  }

  // ---- the whole table --------------------------------------------------------------------

  lemma ExecIsKept(env: Env, args: Args)
    requires env.profile.OpenClawFull?
    ensures TransformArgs(env, "exec", args) == Rewritten("exec", args)
  {
    assert OPENCLAW_TOOLS[7] == "exec";
  }

  lemma CommandIsStable(env: Env, text: string)
    requires env.profile.OpenClawFull? && Clean(text) && Solid(text)
    ensures var r := Command(text);
            IsName(r.name) && Printable(r.args) && TransformArgs(env, r.name, r.args) == r
  {
    CommandPrintable(text);
    ExecIsKept(env, [("command", text)]);
  }

  /** An accepted call is rewritten to one that can be printed and parsed back, and
      that a second pass leaves as it is. */
  lemma TransformIsStable(env: Env, name: string, args: Args)
    requires IsName(name) && Printable(args) && TransformArgs(env, name, args).Rewritten?
    ensures var r := TransformArgs(env, name, args);
            IsName(r.name) && Printable(r.args) && TransformArgs(env, r.name, r.args) == r
  {
    if env.profile.OpenClawFull? {
      GetOrClean(args, "pattern", "");
      if name == "ls" {
        LsPrintable(args);
        CommandIsStable(env, LsCommand(args));
      } else if name == "grep" {
        GrepPrintable(env, args, GetOr(args, "pattern", ""));
        CommandIsStable(env, GrepCommand(env, args, GetOr(args, "pattern", "")));
      } else if name == "find" {
        FindPrintable(args, GetOr(args, "pattern", ""));
        CommandIsStable(env, FindCommand(args, GetOr(args, "pattern", "")));
      } else if name == "apply_patch" {
        PatchArgumentStable(env, args);
      } else if name == "edit" {
        EditPrintable(args);
      } else if name == "process" {
        ProcessIsStable(args);
      }
    }
  }

  lemma PatchArgumentStable(env: Env, args: Args)
    requires env.profile.OpenClawFull? && Printable(args)
    ensures var patch := if Has(args, "input") then Get(args, "input").value else GetOr(args, "patch", "");
            var r := Command(PatchCommand(patch));
            IsName(r.name) && Printable(r.args) && TransformArgs(env, r.name, r.args) == r
  {
    var patch := if Has(args, "input") then Get(args, "input").value else GetOr(args, "patch", "");
    if Has(args, "input") {
      GetPrintable(args, "input");
    }
    GetOrClean(args, "patch", "");
    PatchPrintable(patch);
    CommandIsStable(env, PatchCommand(patch));
  }
}
