/** heredoc_delimiter and the command built around it in
    convert_to_openclaw_compat.py, read back the way a shell reads it. */
module HereDocs {
  import opened Plans
  import opened Text

  // ---- lines ------------------------------------------------------------------------------

  /** Position of the first newline, or the length. */
  function LineEnd(s: string): (n: nat)
    ensures n <= |s| && '\n' !in s[..n]
    ensures forall j :: 0 <= j < n ==> s[j] != '\n'
    ensures n < |s| ==> s[n] == '\n'
  {
    if s == [] || s[0] == '\n' then 0 else 1 + LineEnd(s[1..])
  }

  /** text.split("\n") */
  function Lines(s: string): (r: seq<string>)
    ensures r != []
    ensures forall i :: 0 <= i < |r| ==> '\n' !in r[i]
    decreases |s|
  {
    var n := LineEnd(s);
    if n == |s| then [s] else [s[..n]] + Lines(s[n + 1..])
  }

  lemma {:induction false} LineEndOf(line: string, rest: string)
    requires '\n' !in line && (rest == [] || rest[0] == '\n')
    ensures LineEnd(line + rest) == |line|
  {
    if line == [] {
      assert line + rest == rest;
    } else {
      assert (line + rest)[1..] == line[1..] + rest;
      LineEndOf(line[1..], rest);
    }
  }

  lemma LinesStep(line: string, rest: string)
    requires '\n' !in line
    ensures Lines(line + "\n" + rest) == [line] + Lines(rest)
  {
    assert line + "\n" + rest == line + ("\n" + rest);
    LineEndOf(line, "\n" + rest);
    assert (line + ("\n" + rest))[|line| + 1..] == rest;
  }

  lemma OneLine(line: string)
    requires '\n' !in line
    ensures Lines(line) == [line]
  {
    assert line + [] == line;
    LineEndOf(line, []);
  }

  lemma FirstLineSplit(s: string)
    requires LineEnd(s) < |s|
    ensures s == s[..LineEnd(s)] + "\n" + s[LineEnd(s) + 1..]
  {
    SplitAt(s, LineEnd(s));
  }

  /** Every line followed by a newline. */
  function Unlines(ls: seq<string>): string {
    if ls == [] then [] else ls[0] + "\n" + Unlines(ls[1..])
  }

  lemma {:induction false} UnlinesLines(s: string)
    ensures Unlines(Lines(s)) == s + "\n"
    decreases |s|
  {
    var n := LineEnd(s);
    if n < |s| {
      UnlinesLines(s[n + 1..]);
      assert s == s[..n] + "\n" + s[n + 1..];
      assert Lines(s)[1..] == Lines(s[n + 1..]);
    } else {
      assert Unlines([s]) == s + "\n" + Unlines([]);
    }
  }

  lemma Reassociate(first: string, rest: string, b: string)
    ensures (first + "\n" + rest) + "\n" + b == first + "\n" + (rest + "\n" + b)
  {
  }

  lemma LinesConcatStep(first: string, rest: string, b: string)
    requires '\n' !in first && Lines(rest + "\n" + b) == Lines(rest) + Lines(b)
    ensures Lines((first + "\n" + rest) + "\n" + b) == Lines(first + "\n" + rest) + Lines(b)
  {
    calc {
      Lines((first + "\n" + rest) + "\n" + b);
      { Reassociate(first, rest, b); }
      Lines(first + "\n" + (rest + "\n" + b));
      { LinesStep(first, rest + "\n" + b); }
      [first] + (Lines(rest) + Lines(b));
      { HeadOfTwo(first, Lines(rest), Lines(b)); }
      ([first] + Lines(rest)) + Lines(b);
      { LinesStep(first, rest); }
      Lines(first + "\n" + rest) + Lines(b);
    }
  }

  lemma HeadOfTwo<T>(x: T, a: seq<T>, b: seq<T>)
    ensures [x] + (a + b) == ([x] + a) + b
  {
  }

  lemma {:induction false} LinesConcat(a: string, b: string)
    ensures Lines(a + "\n" + b) == Lines(a) + Lines(b)
    decreases |a|
  {
    var n := LineEnd(a);
    if n == |a| {
      OneLine(a);
      LinesStep(a, b);
    } else {
      FirstLineSplit(a);
      LinesConcat(a[n + 1..], b);
      LinesConcatStep(a[..n], a[n + 1..], b);
    }
  }

  // ---- the substring test -----------------------------------------------------------------

  function Framed(s: string): string { "\n" + s + "\n" }

  lemma FoundAtStart(d: string, rest: string)
    ensures Framed(d) <= Framed(d + "\n" + rest)[0..]
    ensures Framed(d) <= Framed(d)[0..]
  {
    assert Framed(d + "\n" + rest)[0..] == Framed(d) + (rest + "\n");
  }

  lemma {:induction false} LineIsFound(d: string, s: string)
    requires d in Lines(s)
    ensures Contains(Framed(s), Framed(d))
    decreases |s|
  {
    var n := LineEnd(s);
    if n == |s| {
      FoundAtStart(d, []);
    } else {
      FirstLineSplit(s);
      LinesStep(s[..n], s[n + 1..]);
      if d == s[..n] {
        FoundAtStart(d, s[n + 1..]);
      } else {
        LineIsFound(d, s[n + 1..]);
        var i :| 0 <= i <= |Framed(s[n + 1..])| && Framed(d) <= Framed(s[n + 1..])[i..];
        FramedTail(s, n, i);
      }
    }
  }

  lemma FramedTail(s: string, n: nat, i: nat)
    requires n < |s| && s[n] == '\n' && i <= |Framed(s[n + 1..])|
    ensures n + 1 + i <= |Framed(s)| && Framed(s)[n + 1 + i..] == Framed(s[n + 1..])[i..]
  {
    SplitAt(s, n);
    assert Framed(s) == ("\n" + s[..n]) + Framed(s[n + 1..]);
  }

  lemma NewlineAfterFirstLine(s: string, i: nat)
    requires 0 < i < |Framed(s)| && Framed(s)[i] == '\n'
    ensures LineEnd(s) <= i - 1
  {
    assert Framed(s)[i] == if i - 1 < |s| then s[i - 1] else '\n';
  }

  lemma NeedleEnds(d: string, hay: string, i: nat)
    requires i <= |hay| && Framed(d) <= hay[i..]
    ensures i + |d| + 1 < |hay| && hay[i] == '\n' && hay[i + |d| + 1] == '\n'
    ensures hay[i + 1..i + 1 + |d|] == d
  {
    assert hay[i..][0] == Framed(d)[0];
    assert hay[i..][|d| + 1] == Framed(d)[|d| + 1];
    assert hay[i + 1..i + 1 + |d|] == Framed(d)[1..1 + |d|];
  }

  lemma {:induction false} FoundIsLine(d: string, s: string, i: nat)
    requires '\n' !in d && i <= |Framed(s)| && Framed(d) <= Framed(s)[i..]
    ensures d in Lines(s)
    decreases |s|
  {
    var n := LineEnd(s);
    NeedleEnds(d, Framed(s), i);
    if i == 0 {
      FirstLineFramed(d, s);
      FirstLineIs(d, s);
    } else {
      NewlineAfterFirstLine(s, i);
      FramedTail(s, n, i - 1 - n);
      FoundIsLine(d, s[n + 1..], i - 1 - n);
    }
  }

  lemma FirstLineFramed(d: string, s: string)
    requires |d| + 1 < |Framed(s)| && Framed(s)[1..1 + |d|] == d && Framed(s)[|d| + 1] == '\n'
    ensures |d| <= |s| && (s + "\n")[..|d|] == d && (s + "\n")[|d|] == '\n'
  {
    assert Framed(s)[1..1 + |d|] == (s + "\n")[..|d|];
  }

  lemma FirstLineSplits(d: string, s: string)
    requires |d| < |s| && (s + "\n")[..|d|] == d && (s + "\n")[|d|] == '\n'
    ensures s == d + "\n" + s[|d| + 1..]
  {
    assert (s + "\n")[..|d|] == s[..|d|] && s[|d|] == '\n';
    SplitAt(s, |d|);
  }

  lemma FirstLineIs(d: string, s: string)
    requires '\n' !in d && |d| <= |s| && (s + "\n")[..|d|] == d && (s + "\n")[|d|] == '\n'
    ensures Lines(s)[0] == d
  {
    if |d| == |s| {
      assert (s + "\n")[..|d|] == s;
      OneLine(s);
    } else {
      var rest := s[|d| + 1..];
      FirstLineSplits(d, s);
      LinesStep(d, rest);
    }
  }

  /** The framed substring test of the source asks whether `d` is a line of `s`. */
  lemma FramedTestIsLineTest(d: string, s: string)
    requires '\n' !in d
    ensures Contains(Framed(s), Framed(d)) <==> d in Lines(s)
  {
    if d in Lines(s) {
      LineIsFound(d, s);
    }
    if Contains(Framed(s), Framed(d)) {
      var i :| 0 <= i <= |Framed(s)| && Framed(d) <= Framed(s)[i..];
      FoundIsLine(d, s, i);
    }
  }

  // ---- the delimiter ----------------------------------------------------------------------

  function Candidate(base: string, k: nat): string {
    if k == 0 then base else base + "_" + Decimal(k)
  }

  lemma CandidatesDiffer(base: string, j: nat, k: nat)
    requires j != k
    ensures Candidate(base, j) != Candidate(base, k)
  {
    if Candidate(base, j) == Candidate(base, k) && j > 0 && k > 0 {
      assert Candidate(base, j)[|base| + 1..] == Decimal(j);
      assert Candidate(base, k)[|base| + 1..] == Decimal(k);
      DecimalInjective(j, k);
    }
  }

  lemma CandidateIsOneLine(base: string, k: nat)
    requires '\n' !in base
    ensures '\n' !in Candidate(base, k)
  {
    DecimalDigits(k);
  }

  lemma {:induction false} ElementsFit<T>(s: seq<T>, elements: set<T>)
    requires forall x :: x in elements ==> x in s
    ensures |elements| <= |s|
  {
    if s == [] {
      assert elements == {};
    } else {
      assert forall x :: x in elements - {s[0]} ==> x in s[1..];
      ElementsFit(s[1..], elements - {s[0]});
    }
  }

  /** Pigeonhole: at most as many candidates are taken as the text has lines. */
  lemma TakenCandidates(text: string, base: string, k: nat)
    requires forall j :: 0 <= j < k ==> Candidate(base, j) in Lines(text)
    ensures k <= |Lines(text)|
  {
    var taken := CandidateSet(base, k);
    ElementsFit(Lines(text), taken);
  }

  lemma {:induction false} CandidateSet(base: string, k: nat) returns (taken: set<string>)
    ensures |taken| == k
    ensures forall x :: x in taken <==> exists j :: 0 <= j < k && Candidate(base, j) == x
  {
    if k == 0 {
      taken := {};
    } else {
      var before := CandidateSet(base, k - 1);
      var x := Candidate(base, k - 1);
      forall j | 0 <= j < k - 1 ensures Candidate(base, j) != x {
        CandidatesDiffer(base, j, k - 1);
      }
      taken := before + {x};
    }
  }

  /** The first candidate from `k` on that is no line of the text. */
  function FreeFrom(text: string, base: string, k: nat): (n: nat)
    requires forall j :: 0 <= j < k ==> Candidate(base, j) in Lines(text)
    ensures k <= n <= |Lines(text)| && Candidate(base, n) !in Lines(text)
    ensures forall j :: 0 <= j < n ==> Candidate(base, j) in Lines(text)
    decreases |Lines(text)| - k
  {
    TakenCandidates(text, base, k);
    if Candidate(base, k) !in Lines(text) then k
    else
      TakenCandidates(text, base, k + 1);
      FreeFrom(text, base, k + 1)
  }

  function Delimiter(text: string, base: string): string {
    Candidate(base, FreeFrom(text, base, 0))
  }

  lemma CandidateTest(text: string, base: string, k: nat)
    requires '\n' !in base
    ensures Contains(Framed(text), Framed(Candidate(base, k))) <==> Candidate(base, k) in Lines(text)
  {
    CandidateIsOneLine(base, k);
    FramedTestIsLineTest(Candidate(base, k), text);
  }

  /** heredoc_delimiter: stops within one candidate more than the text has lines,
      at the first one that is no line of the text. */
  method HeredocDelimiter(text: string, base: string) returns (delimiter: string)
    requires '\n' !in base
    ensures delimiter !in Lines(text)
    ensures delimiter == Delimiter(text, base)
  {
    delimiter := base;
    var suffix := 0;
    ghost var free := FreeFrom(text, base, 0);
    CandidateTest(text, base, 0);
    while Contains(Framed(text), Framed(delimiter))
      invariant delimiter == Candidate(base, suffix)
      invariant Contains(Framed(text), Framed(delimiter)) <==> delimiter in Lines(text)
      invariant suffix <= free
      decreases free - suffix
    {
      suffix := suffix + 1;
      delimiter := base + "_" + Decimal(suffix);
      CandidateTest(text, base, suffix);
    }
  }

  // ---- the command ------------------------------------------------------------------------

  const PATCH_BASE := "PATCH"

  /** What follows the redirection line of the generated command. */
  function HereDocBody(patch: string): string {
    RStrip(patch) + "\n" + Delimiter(patch, PATCH_BASE)
  }

  function PatchCommand(patch: string): string {
    "apply_patch <<'" + Delimiter(patch, PATCH_BASE) + "'\n" + HereDocBody(patch)
  }

  /** Section 2.7.4 of the POSIX.1-2017 Shell Command Language, quoted delimiter:
      the lines up to the first one that is the delimiter, taken literally. */
  function ReadHereDoc(lines: seq<string>, delimiter: string): Option<string> {
    if lines == [] then None
    else if lines[0] == delimiter then Some([])
    else
      match ReadHereDoc(lines[1..], delimiter)
      case None => None
      case Some(text) => Some(lines[0] + "\n" + text)
  }

  lemma {:induction false} ReadsUpTo(ls: seq<string>, delimiter: string, rest: seq<string>)
    requires delimiter !in ls
    ensures ReadHereDoc(ls + [delimiter] + rest, delimiter) == Some(Unlines(ls))
  {
    var all := ls + [delimiter] + rest;
    if ls == [] {
      assert all[0] == delimiter;
    } else {
      assert all[0] == ls[0] && all[1..] == ls[1..] + [delimiter] + rest;
      ReadsUpTo(ls[1..], delimiter, rest);
    }
  }

  function LastLine(s: string): string {
    Lines(s)[|Lines(s)| - 1]
  }

  lemma MoreText(first: string, rest: string, more: string)
    ensures (first + "\n" + rest) + more == first + "\n" + (rest + more)
  {
  }

  /** All but the last line of a text stay lines when more text follows. */
  lemma {:induction false} PrefixLines(p: string, more: string)
    ensures |Lines(p)| <= |Lines(p + more)|
    ensures forall i :: 0 <= i < |Lines(p)| - 1 ==> Lines(p)[i] == Lines(p + more)[i]
    decreases |p|
  {
    var n := LineEnd(p);
    if n < |p| {
      var first, rest := p[..n], p[n + 1..];
      FirstLineSplit(p);
      LinesStep(first, rest);
      MoreText(first, rest, more);
      LinesStep(first, rest + more);
      PrefixLines(rest, more);
    }
  }

  /** Only the last line of a prefix of the patch can be the delimiter. */
  lemma OnlyLastLineClashes(patch: string, r: string, d: string)
    requires r <= patch && d !in Lines(patch)
    ensures d !in Lines(r)[..|Lines(r)| - 1]
  {
    var ls := Lines(r);
    assert r + patch[|r|..] == patch;
    PrefixLines(r, patch[|r|..]);
    forall i | 0 <= i < |ls| - 1 ensures ls[i] != d {
      assert Lines(patch)[i] == ls[i];
    }
  }

  lemma ReadBody(ls: seq<string>, d: string)
    requires ls != [] && d !in ls[..|ls| - 1]
    ensures ReadHereDoc(ls + [d], d) == Some(Unlines(if ls[|ls| - 1] != d then ls else ls[..|ls| - 1]))
  {
    var n := |ls| - 1;
    assert ls == ls[..n] + [ls[n]];
    if ls[n] != d {
      assert ls + [d] == ls + [d] + [];
      ReadsUpTo(ls, d, []);
    } else {
      assert ls + [d] == ls[..n] + [d] + [d];
      ReadsUpTo(ls[..n], d, [d]);
    }
  }

  lemma DeliversUnlessClash(patch: string, r: string, d: string)
    requires r <= patch && d !in Lines(patch) && '\n' !in d
    ensures ReadHereDoc(Lines(r + "\n" + d), d) == Some(r + "\n") <==> LastLine(r) != d
  {
    var ls := Lines(r);
    LinesConcat(r, d);
    OneLine(d);
    OnlyLastLineClashes(patch, r, d);
    ReadBody(ls, d);
    UnlinesLines(r);
    UnlinesLonger(ls[..|ls| - 1], ls[|ls| - 1]);
    TakeSnoc(ls, |ls| - 1);
    assert ls[..|ls|] == ls;
  }

  /** The shell hands apply_patch exactly the right-stripped patch and a newline if
      and only if the last line of the stripped patch is not the delimiter. */
  lemma HereDocDelivers(patch: string)
    ensures ReadHereDoc(Lines(HereDocBody(patch)), Delimiter(patch, PATCH_BASE)) == Some(RStrip(patch) + "\n")
            <==> LastLine(RStrip(patch)) != Delimiter(patch, PATCH_BASE)
  {
    CandidateIsOneLine(PATCH_BASE, FreeFrom(patch, PATCH_BASE, 0));
    DeliversUnlessClash(patch, RStrip(patch), Delimiter(patch, PATCH_BASE));
  }

  lemma {:induction false} UnlinesLonger(ls: seq<string>, last: string)
    ensures |Unlines(ls + [last])| > |Unlines(ls)|
  {
    if ls != [] {
      assert (ls + [last])[1..] == ls[1..] + [last];
      UnlinesLonger(ls[1..], last);
    }
  }

  lemma DelimiterIsBase(text: string)
    requires PATCH_BASE !in Lines(text)
    ensures Delimiter(text, PATCH_BASE) == PATCH_BASE
  {
    assert Candidate(PATCH_BASE, 0) == PATCH_BASE;
  }

  lemma BaseIsSolid(head: string)
    ensures var s := head + "\n" + PATCH_BASE; s != [] && !IsSpace(s[|s| - 1])
  {
  }

  lemma BlankAfterBase(head: string)
    requires PATCH_BASE !in Lines(head)
    ensures PATCH_BASE !in Lines(head + "\n" + (PATCH_BASE + " "))
  {
    LinesConcat(head, PATCH_BASE + " ");
    OneLine(PATCH_BASE + " ");
  }

  lemma BlankIsStripped(head: string)
    ensures RStrip(head + "\n" + (PATCH_BASE + " ")) == head + "\n" + PATCH_BASE
  {
    MoreText(head, PATCH_BASE, " ");
    BaseIsSolid(head);
    RStripOf(head + "\n" + PATCH_BASE, " ");
  }

  lemma LastLineOfBase(head: string)
    ensures LastLine(head + "\n" + PATCH_BASE) == PATCH_BASE
  {
    LinesConcat(head, PATCH_BASE);
    OneLine(PATCH_BASE);
  }

  /** A patch that ends in the delimiter with a trailing blank does lose its last line. */
  lemma TrailingBlankLosesLine(head: string)
    requires PATCH_BASE !in Lines(head)
    ensures var patch := head + "\n" + (PATCH_BASE + " ");
            ReadHereDoc(Lines(HereDocBody(patch)), Delimiter(patch, PATCH_BASE)) != Some(RStrip(patch) + "\n")
  {
    var patch := head + "\n" + (PATCH_BASE + " ");
    BlankAfterBase(head);
    BlankIsStripped(head);
    DelimiterIsBase(patch);
    LastLineOfBase(head);
    HereDocDelivers(patch);
  }
}
