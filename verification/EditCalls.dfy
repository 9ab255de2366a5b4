/** What a migrated edit call says: its list of edits, read back as JSON. */
module EditCalls {
  import opened Plans
  import opened ToolCalls
  import opened Migrations
  import opened JsonTexts

  // ---- the text of the edits, piece by piece ----------------------------------------------

  predicate PlainInJson(c: char) { c >= ' ' && c != '"' && c != '\\' }

  lemma {:induction false} PlainUnescaped(t: string)
    requires forall i :: 0 <= i < |t| ==> PlainInJson(t[i])
    ensures EscapeAll(t, JsonChar) == t
  {
    if t != [] {
      PlainUnescaped(t[1..]);
      assert JsonChar(t[0]) == [t[0]] && t == [t[0]] + t[1..];
    }
  }

  lemma KeyText(key: string)
    requires forall i :: 0 <= i < |key| ==> PlainInJson(key[i])
    ensures JsonString(key) == "\"" + key + "\""
  {
    PlainUnescaped(key);
  }

  lemma FirstIs(s: string, rest: string)
    requires s != []
    ensures (s + rest)[0] == s[0] && (s + rest)[1..] == s[1..] + rest
  {
  }

  lemma StringBegins(t: string, rest: string)
    ensures JsonString(t) + rest != [] && (JsonString(t) + rest)[0] == '"'
  {
    FirstIs(JsonString(t), rest);
  }

  /** `"key": "text"` */
  lemma MemberRead(key: string, x: string, rest: string)
    ensures ReadMember(JsonString(key) + (": " + (JsonString(x) + rest))) == Some(((key, Text(x)), rest))
  {
    var more := JsonString(x) + rest;
    StringBegins(key, ": " + more);
    StringRead(key, ": " + more);
    assert (": " + more)[1..] == " " + more;
    StringBegins(x, rest);
    assert (" " + more)[1..] == more;
    assert SkipBlanks(" " + more) == more;
    StringRead(x, rest);
    NotTrue(more);
  }

  lemma NotTrue(s: string)
    requires s != [] && s[0] == '"'
    ensures !("true" <= s)
  {
  }

  /** `"key": true` */
  lemma FlagRead(key: string, rest: string)
    ensures ReadMember(JsonString(key) + (": true" + rest)) == Some(((key, True), rest))
  {
    StringBegins(key, ": true" + rest);
    StringRead(key, ": true" + rest);
    ColonRead(rest);
    TrueRead(rest);
  }

  lemma ColonRead(rest: string)
    ensures After(": true" + rest, ':') == Some(" true" + rest)
  {
    assert (": true" + rest)[1..] == " true" + rest;
  }

  lemma TrueRead(rest: string)
    ensures ReadValue(" true" + rest) == Some((True, rest))
  {
    var t := "true" + rest;
    assert (" true" + rest)[1..] == t;
    assert SkipBlanks(t) == t && t[4..] == rest;
  }

  /** A character that is no blank comes next. */
  lemma CharFirst(c: char, rest: string)
    requires !Blank(c)
    ensures After([c] + rest, c) == Some(rest)
    ensures forall d: char :: d != c ==> After([c] + rest, d) == None
  {
    assert ([c] + rest)[1..] == rest;
    assert SkipBlanks([c] + rest) == [c] + rest;
  }

  lemma CommaText(more: string)
    ensures ", " + more == [','] + (" " + more)
  {
  }

  lemma LastMember(s: string, m: (string, Value), rest: string)
    requires ReadMember(s) == Some((m, "}" + rest))
    ensures ReadMembers(s) == Some(([m], rest))
  {
    assert ("}" + rest)[1..] == rest;
  }

  lemma NextMember(s: string, m: (string, Value), more: string, ms: seq<(string, Value)>, end: string)
    requires ReadMember(s) == Some((m, ", " + more)) && more != [] && more[0] == '"'
    requires ReadMembers(more) == Some((ms, end))
    ensures ReadMembers(s) == Some(([m] + ms, end))
  {
    CommaText(more);
    CharFirst(',', " " + more);
    BlankBefore(more);
  }

  lemma BlankBefore(more: string)
    requires more != [] && more[0] == '"'
    ensures ReadMembers(" " + more) == ReadMembers(more)
  {
    assert (" " + more)[1..] == more;
    assert SkipBlanks(" " + more) == more && SkipBlanks(more) == more;
  }

  /** The members of an edit. */
  function EditMembers(o: string, n: string, all: bool): seq<(string, Value)> {
    [("oldText", Text(o)), ("newText", Text(n))] + if all then [("replaceAll", True)] else []
  }

  lemma EndPlain(n: string)
    ensures ReadMembers(JsonString("newText") + (": " + (JsonString(n) + "}]"))) == Some(([("newText", Text(n))], "]"))
  {
    MemberRead("newText", n, "}]");
    BraceBracket();
    LastMember(JsonString("newText") + (": " + (JsonString(n) + "}]")), ("newText", Text(n)), "]");
  }

  lemma BraceBracket()
    ensures "}]" == "}" + "]"
  {
  }

  function AllText(): string {
    JsonString("replaceAll") + (": true" + "}]")
  }

  lemma EndAllText()
    ensures EditEnd(true) == ", " + AllText() && EditEnd(false) == "}]"
    ensures AllText() != [] && AllText()[0] == '"'
  {
    EndAllOf("replaceAll");
    StringBegins("replaceAll", ": true" + "}]");
  }

  lemma EndAllOf(key: string)
    requires key == "replaceAll"
    ensures EditEnd(true) == ", " + (JsonString(key) + (": true" + "}]"))
  {
    KeyText(key);
  }

  lemma AllRead()
    ensures ReadMembers(AllText()) == Some(([("replaceAll", True)], "]"))
  {
    FlagRead("replaceAll", "}]");
    BraceBracket();
    LastMember(AllText(), ("replaceAll", True), "]");
  }

  lemma EndWithAll(n: string, more: string)
    requires more != [] && more[0] == '"' && ReadMembers(more) == Some(([("replaceAll", True)], "]"))
    ensures ReadMembers(JsonString("newText") + (": " + (JsonString(n) + (", " + more))))
         == Some(([("newText", Text(n))] + [("replaceAll", True)], "]"))
  {
    MemberRead("newText", n, ", " + more);
    NextMember(JsonString("newText") + (": " + (JsonString(n) + (", " + more))), ("newText", Text(n)), more,
               [("replaceAll", True)], "]");
  }

  /** The members after the first. */
  function LaterMembers(n: string, all: bool): seq<(string, Value)> {
    if all then [("newText", Text(n))] + [("replaceAll", True)] else [("newText", Text(n))]
  }

  lemma EndRead(n: string, all: bool)
    ensures ReadMembers(JsonString("newText") + (": " + (JsonString(n) + EditEnd(all)))) == Some((LaterMembers(n, all), "]"))
  {
    EndAllText();
    if all {
      AllRead();
      EndWithAll(n, AllText());
    } else {
      EndPlain(n);
    }
  }

  lemma FirstThenRest(o: string, more: string, ms: seq<(string, Value)>)
    requires more != [] && more[0] == '"' && ReadMembers(more) == Some((ms, "]"))
    ensures ReadMembers(JsonString("oldText") + (": " + (JsonString(o) + (", " + more))))
         == Some(([("oldText", Text(o))] + ms, "]"))
  {
    MemberRead("oldText", o, ", " + more);
    NextMember(JsonString("oldText") + (": " + (JsonString(o) + (", " + more))), ("oldText", Text(o)), more, ms, "]");
  }

  lemma MiddleText(tail: string)
    ensures EDIT_MIDDLE + tail == ", " + (JsonString("newText") + (": " + tail))
  {
    MiddleOf("newText", tail);
  }

  lemma MiddleOf(key: string, tail: string)
    requires key == "newText"
    ensures EDIT_MIDDLE + tail == ", " + (JsonString(key) + (": " + tail))
  {
    KeyText(key);
  }

  lemma MembersAre(o: string, n: string, all: bool)
    ensures [("oldText", Text(o))] + LaterMembers(n, all) == EditMembers(o, n, all)
  {
  }

  lemma MembersRead(o: string, n: string, all: bool)
    ensures ReadMembers(JsonString("oldText") + (": " + (JsonString(o) + (EDIT_MIDDLE + (JsonString(n) + EditEnd(all))))))
         == Some((EditMembers(o, n, all), "]"))
  {
    var tail := JsonString(n) + EditEnd(all);
    MiddleText(tail);
    EndRead(n, all);
    StringBegins("newText", ": " + tail);
    FirstThenRest(o, JsonString("newText") + (": " + tail), LaterMembers(n, all));
    MembersAre(o, n, all);
  }

  lemma EditsOpen(rest: string)
    ensures EDIT_OPEN + rest == "[{" + (JsonString("oldText") + (": " + rest))
  {
    OpenOf("oldText", rest);
  }

  lemma OpenOf(key: string, rest: string)
    requires key == "oldText"
    ensures EDIT_OPEN + rest == "[{" + (JsonString(key) + (": " + rest))
  {
    KeyText(key);
  }

  lemma BracketsText(b: string)
    ensures "[{" + b == ['['] + (['{'] + b)
    ensures "]" == [']'] + []
  {
  }

  lemma InBrackets(b: string, ms: seq<(string, Value)>)
    requires ReadMembers(b) == Some((ms, "]"))
    ensures ReadOneObject("[{" + b) == Some(ms)
  {
    BracketsText(b);
    CharFirst('[', ['{'] + b);
    CharFirst('{', b);
    CharFirst(']', []);
  }

  /** The printed edits read as one object with these members. */
  lemma EditsRead(o: string, n: string, all: bool)
    ensures ReadOneObject(EditsText(o, n, all)) == Some(EditMembers(o, n, all))
  {
    var rest := JsonString(o) + (EDIT_MIDDLE + (JsonString(n) + EditEnd(all)));
    EditsOpen(rest);
    MembersRead(o, n, all);
    InBrackets(JsonString("oldText") + (": " + rest), EditMembers(o, n, all));
  }

  // ---- the meaning of an edit -------------------------------------------------------------

  /** The one value of a key. */
  predicate SaysText(ms: seq<(string, Value)>, key: string, text: string) {
    (exists i :: 0 <= i < |ms| && ms[i].0 == key) && forall i :: 0 <= i < |ms| && ms[i].0 == key ==> ms[i].1 == Text(text)
  }

  predicate Mentions(ms: seq<(string, Value)>, key: string) {
    exists i :: 0 <= i < |ms| && ms[i].0 == key
  }

  /** `args.get(key, "")` */
  function TextAt(args: Args, key: string): string {
    match Get(args, key)
    case Some(v) => v
    case None => ""
  }

  lemma MembersSay(o: string, n: string, all: bool)
    ensures var ms := EditMembers(o, n, all);
      SaysText(ms, "oldText", o) && SaysText(ms, "newText", n) && (Mentions(ms, "replaceAll") <==> all)
  {
    var ms := EditMembers(o, n, all);
    KeysDiffer();
    assert ms[0] == ("oldText", Text(o)) && ms[1] == ("newText", Text(n));
    if all {
      assert ms[2].0 == "replaceAll";
    }
  }

  lemma KeysDiffer()
    ensures "oldText" != "newText" && "oldText" != "replaceAll" && "newText" != "replaceAll" && "path" != "edits"
  {
    assert "oldText"[0] == 'o' && "newText"[0] == 'n' && "replaceAll"[0] == 'r' && "path"[0] == 'p';
  }

  /** An edit call with an old and a new text and no list of edits: the list it is given reads
      as one edit whose old text is `old_string`, whose new text is `new_string`, and which
      replaces all occurrences exactly if `replace_all` is not empty; the path stays. */
  lemma EditMeans(env: Env, args: Args)
    requires env.profile.OpenClawFull?
    requires Get(args, "edits").None? && Get(args, "old_string").Some? && Get(args, "new_string").Some?
    ensures var r := TransformArgs(env, "edit", args);
      && r.Rewritten? && r.name == "edit" && |r.args| == 2
      && Get(r.args, "path") == Some(TextAt(args, "path"))
      && Get(r.args, "edits").Some?
      && var edit := ReadOneObject(Get(r.args, "edits").value);
         && edit.Some?
         && SaysText(edit.value, "oldText", Get(args, "old_string").value)
         && SaysText(edit.value, "newText", Get(args, "new_string").value)
         && (Mentions(edit.value, "replaceAll") <==> TextAt(args, "replace_all") != "")
  {
    var o, n := Get(args, "old_string").value, Get(args, "new_string").value;
    var all := GetOr(args, "replace_all", "") != [];
    EditIsATool();
    KeysDiffer();
    EditsRead(o, n, all);
    MembersSay(o, n, all);
    var edits := EditsText(o, n, all);
    var pairs: Args := [("path", GetOr(args, "path", "")), ("edits", edits)];
    assert pairs[1..] == [("edits", edits)];
    assert Edit(args) == Rewritten("edit", pairs);
  }

  lemma EditIsATool()
    ensures "edit" in OPENCLAW_TOOLS && "edit" != "ls" && "edit" != "grep" && "edit" != "find" && "edit" != "apply_patch"
  {
    assert OPENCLAW_TOOLS[6] == "edit";
    assert "edit"[0] == 'e';
  }
}
