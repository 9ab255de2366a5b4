/** Reading a shell command: quoting and token recognition as in sections 2.2 and 2.3 of the
    POSIX.1-2017 Shell Command Language, for commands without expansions. */
module ShellWords {
  import opened Plans
  import opened Migrations

  datatype Token = Word(text: string) | Op(c: char)

  datatype Quoting = Bare | Single | Double

  /** Characters that stand for themselves outside quotation marks. */
  predicate Ordinary(c: char) {
    'a' <= c <= 'z' || 'A' <= c <= 'Z' || '0' <= c <= '9' || c in "_@%+=:,./-"
  }

  function SoFar(word: Option<string>): string {
    if word.Some? then word.value else ""
  }

  function Ended(word: Option<string>): seq<Token> {
    if word.Some? then [Word(word.value)] else []
  }

  function Prepend(ts: seq<Token>, more: Option<seq<Token>>): Option<seq<Token>> {
    if more.Some? then Some(ts + more.value) else None
  }

  /** The tokens of `s`, read on from the middle of `word` if there is one; None when a
      quotation is not ended or a character asks for an expansion or a new line. */
  function Lex(s: string, quoting: Quoting, word: Option<string>): Option<seq<Token>> {
    if s == [] then
      if quoting == Bare then Some(Ended(word)) else None
    else
      var c, rest := s[0], s[1..];
      match quoting
      case Single => if c == '\'' then Lex(rest, Bare, word) else Lex(rest, Single, Some(SoFar(word) + [c]))
      case Double =>
        if c == '"' then Lex(rest, Bare, word)
        else if c in "$`\\" then None
        else Lex(rest, Double, Some(SoFar(word) + [c]))
      case Bare =>
        if c == '\'' then Lex(rest, Single, Some(SoFar(word)))
        else if c == '"' then Lex(rest, Double, Some(SoFar(word)))
        else if c == ' ' then Prepend(Ended(word), Lex(rest, Bare, None))
        else if c in ";|<>&" then Prepend(Ended(word) + [Op(c)], Lex(rest, Bare, None))
        else if Ordinary(c) then Lex(rest, Bare, Some(SoFar(word) + [c]))
        else None
  }

  function Tokens(command: string): Option<seq<Token>> {
    Lex(command, Bare, None)
  }

  function AsWords(parts: seq<string>): seq<Token> {
    if parts == [] then [] else [Word(parts[0])] + AsWords(parts[1..])
  }

  // ---- quoted words are read back ---------------------------------------------------------

  lemma SafeIsOrdinary(c: char)
    requires SafeInShell(c)
    ensures Ordinary(c) && c != '\'' && c != '"' && c != ' ' && c !in ";|<>&"
  {
  }

  lemma OrdinaryStep(c: char, rest: string, word: Option<string>)
    requires SafeInShell(c)
    ensures Lex([c] + rest, Bare, word) == Lex(rest, Bare, Some(SoFar(word) + [c]))
  {
    SafeIsOrdinary(c);
    assert ([c] + rest)[1..] == rest;
  }

  lemma {:induction false} SafeRead(s: string, rest: string, word: Option<string>)
    requires AllSafe(s) && s != []
    ensures Lex(s + rest, Bare, word) == Lex(rest, Bare, Some(SoFar(word) + s))
  {
    HeadApart(s, rest);
    OrdinaryStep(s[0], s[1..] + rest, word);
    if |s| == 1 {
      assert s[1..] + rest == rest && s == [s[0]];
    } else {
      SafeRead(s[1..], rest, Some(SoFar(word) + [s[0]]));
      MoveChar(SoFar(word), s);
    }
  }

  lemma HeadApart(s: string, rest: string)
    requires s != []
    ensures s + rest == [s[0]] + (s[1..] + rest)
  {
  }

  lemma SingleEnds(rest: string, word: Option<string>)
    ensures Lex("'" + rest, Single, word) == Lex(rest, Bare, word)
  {
    assert ("'" + rest)[1..] == rest;
  }

  lemma SingleBegins(rest: string, word: Option<string>)
    ensures Lex("'" + rest, Bare, word) == Lex(rest, Single, Some(SoFar(word)))
  {
    assert ("'" + rest)[1..] == rest;
  }

  lemma DoubleBegins(rest: string, word: Option<string>)
    ensures Lex("\"" + rest, Bare, word) == Lex(rest, Double, Some(SoFar(word)))
  {
    assert ("\"" + rest)[1..] == rest;
  }

  lemma DoubleEnds(rest: string, word: Option<string>)
    ensures Lex("\"" + rest, Double, word) == Lex(rest, Bare, word)
  {
    assert ("\"" + rest)[1..] == rest;
  }

  lemma MarkInDouble(rest: string, w: string)
    ensures Lex("'" + rest, Double, Some(w)) == Lex(rest, Double, Some(w + "'"))
  {
    assert ("'" + rest)[1..] == rest;
  }

  lemma CharInSingle(c: char, rest: string, w: string)
    requires c != '\''
    ensures Lex([c] + rest, Single, Some(w)) == Lex(rest, Single, Some(w + [c]))
  {
    assert ([c] + rest)[1..] == rest;
  }

  lemma FiveMarks(rest: string)
    ensures "'\"'\"'" + rest == "'" + ("\"" + ("'" + ("\"" + ("'" + rest))))
  {
  }

  /** `'"'"'` inside single quotation marks is one of them. */
  lemma QuoteMarkRead(rest: string, w: string)
    ensures Lex("'\"'\"'" + rest, Single, Some(w)) == Lex(rest, Single, Some(w + "'"))
  {
    FiveMarks(rest);
    SingleEnds("\"" + ("'" + ("\"" + ("'" + rest))), Some(w));
    DoubleBegins("'" + ("\"" + ("'" + rest)), Some(w));
    MarkInDouble("\"" + ("'" + rest), w);
    DoubleEnds("'" + rest, Some(w + "'"));
    SingleBegins(rest, Some(w + "'"));
  }

  lemma {:induction false} EscapedRead(s: string, rest: string, w: string)
    ensures Lex(EscapeAll(s, QuoteChar) + ("'" + rest), Single, Some(w)) == Lex(rest, Bare, Some(w + s))
  {
    if s == [] {
      assert EscapeAll(s, QuoteChar) + ("'" + rest) == "'" + rest && w + s == w;
      SingleEnds(rest, Some(w));
    } else {
      var e, more := QuoteChar(s[0]), EscapeAll(s[1..], QuoteChar) + ("'" + rest);
      AssocSeq(e, EscapeAll(s[1..], QuoteChar), "'" + rest);
      EscapedRead(s[1..], rest, w + [s[0]]);
      MoveChar(w, s);
      if s[0] == '\'' {
        QuoteMarkRead(more, w);
      } else {
        CharInSingle(s[0], more, w);
      }
    }
  }

  /** A quoted word is read as the text that was quoted. */
  lemma QuoteRead(p: string, rest: string)
    ensures Lex(Quote(p) + rest, Bare, None) == Lex(rest, Bare, Some(p))
  {
    if p == [] {
      assert "''" + rest == "'" + ("'" + rest);
      SingleBegins("'" + rest, None);
      SingleEnds(rest, Some(""));
    } else if AllSafe(p) {
      SafeRead(p, rest, None);
      assert SoFar(None) + p == p;
    } else {
      QuotedRead(p, rest);
    }
  }

  lemma QuotedRead(p: string, rest: string)
    ensures Lex(("'" + EscapeAll(p, QuoteChar) + "'") + rest, Bare, None) == Lex(rest, Bare, Some(p))
  {
    var e := EscapeAll(p, QuoteChar);
    assert ("'" + e + "'") + rest == "'" + (e + ("'" + rest));
    SingleBegins(e + ("'" + rest), None);
    EscapedRead(p, rest, "");
    assert "" + p == p;
  }

  /** What follows ends the word before it. */
  predicate EndsWord(rest: string) {
    rest == [] || rest[0] == ' ' || rest[0] in ";|<>&"
  }

  lemma WordThenBlank(w: string, rest: string)
    ensures Lex(" " + rest, Bare, Some(w)) == Prepend([Word(w)], Lex(rest, Bare, None))
  {
    assert (" " + rest)[1..] == rest;
  }

  lemma WordThenOp(w: string, c: char, rest: string)
    requires c in ";|<>&"
    ensures Lex([c] + rest, Bare, Some(w)) == Prepend([Word(w)], Prepend([Op(c)], Lex(rest, Bare, None)))
  {
    assert ([c] + rest)[1..] == rest;
    PrependTwice([Word(w)], [Op(c)], Lex(rest, Bare, None));
  }

  lemma BlankRead(rest: string)
    ensures Lex(" " + rest, Bare, None) == Lex(rest, Bare, None)
  {
    assert (" " + rest)[1..] == rest;
    PrependNothing(Lex(rest, Bare, None));
  }

  lemma PrependNothing(more: Option<seq<Token>>)
    ensures Prepend([], more) == more
  {
    if more.Some? {
      assert [] + more.value == more.value;
    }
  }

  lemma OpRead(c: char, rest: string)
    requires c in ";|<>&"
    ensures Lex([c] + rest, Bare, None) == Prepend([Op(c)], Lex(rest, Bare, None))
  {
    assert ([c] + rest)[1..] == rest;
    assert [] + [Op(c)] == [Op(c)];
  }

  lemma WordEnds(w: string, rest: string)
    requires EndsWord(rest)
    ensures Lex(rest, Bare, Some(w)) == Prepend([Word(w)], Lex(rest, Bare, None))
  {
    if rest == [] {
      assert [Word(w)] + [] == [Word(w)];
    } else {
      assert rest == [rest[0]] + rest[1..];
      if rest[0] == ' ' {
        WordThenBlank(w, rest[1..]);
        BlankRead(rest[1..]);
      } else {
        WordThenOp(w, rest[0], rest[1..]);
        OpRead(rest[0], rest[1..]);
      }
    }
  }

  lemma PrependTwice(a: seq<Token>, b: seq<Token>, more: Option<seq<Token>>)
    ensures Prepend(a, Prepend(b, more)) == Prepend(a + b, more)
  {
    if more.Some? {
      assert a + (b + more.value) == (a + b) + more.value;
    }
  }

  lemma FirstOfJoin(parts: seq<string>, rest: string)
    requires |parts| > 1
    ensures ShellJoin(parts) + rest == Quote(parts[0]) + (" " + (ShellJoin(parts[1..]) + rest))
  {
    SpaceBetween(Quote(parts[0]), ShellJoin(parts[1..]), rest);
  }

  lemma FirstWordRead(p: string, more: string)
    ensures Lex(Quote(p) + (" " + more), Bare, None) == Prepend([Word(p)], Lex(more, Bare, None))
  {
    QuoteRead(p, " " + more);
    WordThenBlank(p, more);
  }

  /** A joined command is read as the words that were joined. */
  lemma {:induction false} JoinRead(parts: seq<string>, rest: string)
    requires parts != [] && EndsWord(rest)
    ensures Lex(ShellJoin(parts) + rest, Bare, None) == Prepend(AsWords(parts), Lex(rest, Bare, None))
  {
    if |parts| == 1 {
      QuoteRead(parts[0], rest);
      WordEnds(parts[0], rest);
      assert AsWords(parts) == [Word(parts[0])];
    } else {
      FirstOfJoin(parts, rest);
      FirstWordRead(parts[0], ShellJoin(parts[1..]) + rest);
      JoinRead(parts[1..], rest);
      PrependTwice([Word(parts[0])], AsWords(parts[1..]), Lex(rest, Bare, None));
    }
  }

  lemma WholeJoinRead(parts: seq<string>)
    requires parts != []
    ensures Tokens(ShellJoin(parts)) == Some(AsWords(parts))
  {
    JoinRead(parts, []);
    assert ShellJoin(parts) + [] == ShellJoin(parts);
    assert AsWords(parts) + [] == AsWords(parts);
  }
}
