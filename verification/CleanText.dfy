/** Texts that contain no closing markup, and scanning for the closing markup. */
module CleanText {
  import opened Plans
  import opened Text
  import opened Markup

  /** `s` starts with `</parameter>` or with the end of a tool call. */
  predicate Marked(s: string) {
    PARAM_CLOSE <= s || CloseAt(s).Some?
  }

  /** No closing markup begins anywhere in the text. */
  predicate Clean(s: string) {
    s == [] || (!Marked(s) && Clean(s[1..]))
  }

  predicate CloseFree(s: string) {
    s == [] || (CloseAt(s).None? && CloseFree(s[1..]))
  }

  predicate EndFree(s: string) {
    s == [] || (!(PARAM_CLOSE <= s) && EndFree(s[1..]))
  }

  lemma {:induction false} CleanIsBoth(s: string)
    ensures Clean(s) <==> CloseFree(s) && EndFree(s)
  {
    if s != [] {
      CleanIsBoth(s[1..]);
    }
  }

  // ---- the text of a mark -----------------------------------------------------------------

  /** Characters a mark can contain besides white space. */
  predicate MarkChar(c: char) {
    c in "</>_acefilmnoprtu"
  }

  /** What the text of a mark looks like. */
  ghost predicate MarkLike(m: string) {
    && |m| > 1 && m[0] == '<' && m[|m| - 1] == '>'
    && (forall i :: 0 <= i < |m| ==> IsSpace(m[i]) || MarkChar(m[i]))
    && (forall i :: 0 <= i < |m| && IsSpace(m[i]) ==> exists j :: i < j < |m| && m[j] == '<')
    && (m == PARAM_CLOSE || exists w :: AllSpace(w) && m == Closing(w))
  }

  lemma ParamCloseIsMark()
    ensures MarkLike(PARAM_CLOSE)
  {
    var m := PARAM_CLOSE;
    forall i | 0 <= i < |m| ensures MarkChar(m[i]) && !IsSpace(m[i]) {}
  }

  lemma CallCloseChars(i: nat)
    requires i < |CALL_CLOSE|
    ensures MarkChar(CALL_CLOSE[i])
  {
  }

  lemma FunctionCloseChars(i: nat)
    requires i < |FUNCTION_CLOSE|
    ensures MarkChar(FUNCTION_CLOSE[i]) && !IsSpace(FUNCTION_CLOSE[i])
  {
  }

  lemma ClosingIsMark(w: string)
    requires AllSpace(w)
    ensures MarkLike(Closing(w))
  {
    var m := Closing(w);
    var at := |FUNCTION_CLOSE| + |w|;
    ClosingChars(w, 0);
    ClosingChars(w, at);
    ClosingChars(w, |m| - 1);
    forall i | 0 <= i < |m|
      ensures IsSpace(m[i]) || MarkChar(m[i])
      ensures IsSpace(m[i]) ==> i < at
    {
      ClosingChars(w, i);
      if i < |FUNCTION_CLOSE| {
        FunctionCloseChars(i);
      } else if i >= at {
        CallCloseChars(i - at);
        MarkCharsAreNotSpaces(m[i]);
      }
    }
  }

  lemma MarkCharsAreNotSpaces(c: char)
    requires MarkChar(c)
    ensures !IsSpace(c)
  {
  }

  /** The text of the mark at the start of `s`. */
  lemma MarkText(s: string) returns (m: string)
    requires Marked(s)
    ensures |m| <= |s| && s[..|m|] == m && MarkLike(m)
  {
    if PARAM_CLOSE <= s {
      m := PARAM_CLOSE;
      ParamCloseIsMark();
    } else {
      var w := CloseParts(s);
      m := Closing(w);
      ClosingIsMark(w);
    }
  }

  lemma MarkedStart(s: string)
    requires Marked(s)
    ensures |s| > 1 && s[0] == '<' && s[1] == '/'
  {
    if PARAM_CLOSE <= s {
      assert s[1] == PARAM_CLOSE[1];
    } else {
      assert s[1] == FUNCTION_CLOSE[1];
    }
  }

  /** A mark found in a text is a mark of every longer text. */
  lemma MarkedExtends(s: string, r: string)
    requires Marked(s)
    ensures Marked(s + r)
  {
    if PARAM_CLOSE <= s {
      assert s <= s + r;
    } else {
      CloseExtends(s, r);
    }
  }

  lemma MarkPrefix(m: string, r: string)
    requires MarkLike(m)
    ensures Marked(m + r)
  {
    if m == PARAM_CLOSE {
      Prefixed(m, r);
    } else {
      var w :| AllSpace(w) && m == Closing(w);
      CloseBuilt(w, r);
    }
  }

  lemma SubtextMark(s: string, j: nat)
    requires j <= |s|
    ensures Marked(s[..j]) ==> Marked(s)
    ensures CloseAt(s[..j]).Some? ==> CloseAt(s).Some?
    ensures PARAM_CLOSE <= s[..j] ==> PARAM_CLOSE <= s
  {
    assert s[..j] + s[j..] == s;
    if Marked(s[..j]) {
      MarkedExtends(s[..j], s[j..]);
    }
    if CloseAt(s[..j]).Some? {
      CloseExtends(s[..j], s[j..]);
    }
  }

  // ---- building clean texts ---------------------------------------------------------------

  predicate NoLt(s: string) { forall i :: 0 <= i < |s| ==> s[i] != '<' }

  lemma {:induction false} CleanAfterPlain(p: string, y: string)
    requires NoLt(p) && Clean(y)
    ensures Clean(p + y)
  {
    if p == [] {
      assert p + y == y;
    } else {
      assert (p + y)[1..] == p[1..] + y;
      CleanAfterPlain(p[1..], y);
      if Marked(p + y) {
        MarkedStart(p + y);
      }
    }
  }

  lemma PlainIsClean(p: string)
    requires NoLt(p)
    ensures Clean(p)
  {
    CleanAfterPlain(p, []);
    assert p + [] == p;
  }

  lemma {:induction false} CleanSuffix(s: string, i: nat)
    requires Clean(s) && i <= |s|
    ensures Clean(s[i..])
  {
    if i > 0 {
      assert s[1..][i - 1..] == s[i..];
      CleanSuffix(s[1..], i - 1);
    }
  }

  lemma {:induction false} CleanPrefix(s: string, j: nat)
    requires Clean(s) && j <= |s|
    ensures Clean(s[..j])
  {
    if j > 0 {
      assert s[..j][1..] == s[1..][..j - 1];
      CleanPrefix(s[1..], j - 1);
      SubtextMark(s, j);
    }
  }

  /** A character no mark can contain keeps what is before and after it apart. */
  predicate Separator(c: char) { !MarkChar(c) && !IsSpace(c) }

  lemma SeparatorCrossing(m: string, x: string, tail: string)
    requires MarkLike(m) && |x| < |m| <= |x| + |tail| && (x + tail)[..|m|] == m
    ensures !Separator(tail[0])
  {
    CrossingText(m, x, tail);
    assert IsSpace(m[|x|]) || MarkChar(m[|x|]);
  }

  lemma MarkBeforeSeparator(a: string, c: char, b: string)
    requires a != [] && Separator(c)
    ensures Marked(a + ([c] + b)) ==> Marked(a)
  {
    if Marked(a + ([c] + b)) {
      var m := MarkText(a + ([c] + b));
      if |m| <= |a| {
        InsideText(m, a, [c] + b);
        MarkPrefix(m, a[|m|..]);
      } else {
        SeparatorCrossing(m, a, [c] + b);
        assert false;
      }
    }
  }

  lemma {:induction false} CleanAround(a: string, c: char, b: string)
    requires Clean(a) && Separator(c) && Clean(b)
    ensures Clean(a + ([c] + b))
  {
    var tail := [c] + b;
    CleanAfterPlain([c], b);
    if a == [] {
      assert a + tail == tail;
    } else {
      assert (a + tail)[1..] == a[1..] + tail;
      CleanAround(a[1..], c, b);
      MarkBeforeSeparator(a, c, b);
    }
  }

  lemma BlankCrossing(m: string, x: string, b: string)
    requires MarkLike(m) && b != [] && IsSpace(b[0])
    requires |x| < |m| <= |x| + |b| && (x + b)[..|m|] == m
    ensures !NoLt(b)
  {
    CrossingText(m, x, b);
    assert IsSpace(m[|x|]);
    var j :| |x| < j < |m| && m[j] == '<';
    assert b[j - |x|] == '<';
  }

  lemma MarkBeforePlain(a: string, b: string)
    requires a != [] && NoLt(b) && b != [] && IsSpace(b[0])
    ensures Marked(a + b) ==> Marked(a)
  {
    if Marked(a + b) {
      var m := MarkText(a + b);
      if |m| <= |a| {
        InsideText(m, a, b);
        MarkPrefix(m, a[|m|..]);
      } else {
        BlankCrossing(m, a, b);
        assert false;
      }
    }
  }

  /** White space and then a text without `<` can follow a clean text. */
  lemma {:induction false} CleanBeforePlain(a: string, b: string)
    requires Clean(a) && NoLt(b) && b != [] && IsSpace(b[0])
    ensures Clean(a + b)
  {
    if a == [] {
      assert a + b == b;
      PlainIsClean(b);
    } else {
      assert (a + b)[1..] == a[1..] + b;
      CleanBeforePlain(a[1..], b);
      MarkBeforePlain(a, b);
    }
  }

  lemma CleanStrip(s: string)
    requires Clean(s)
    ensures Clean(Strip(s)) && Clean(RStrip(s))
  {
    var t := s[Spaces(s)..];
    CleanSuffix(s, Spaces(s));
    CleanPrefix(t, |RStrip(t)|);
    assert t[..|RStrip(t)|] == RStrip(t);
    CleanPrefix(s, |RStrip(s)|);
    assert s[..|RStrip(s)|] == RStrip(s);
  }

  // ---- scanning for the end of a call -----------------------------------------------------

  /** Position of the first `</function>\s*</tool_call>`. */
  function FindClose(s: string): (r: Option<nat>)
    ensures r.Some? ==> r.value <= |s| && CloseAt(s[r.value..]).Some?
  {
    if CloseAt(s).Some? then Some(0)
    else if s == [] then None
    else
      match FindClose(s[1..])
      case None => None
      case Some(i) => Some(i + 1)
  }

  lemma FunctionCloseStart(s: string)
    requires FUNCTION_CLOSE <= s
    ensures s[0] == '<' && s[1] == '/' && s[2] == 'f'
  {
  }

  lemma CallCloseStart(s: string)
    requires CALL_CLOSE <= s
    ensures s[2] == 't'
  {
  }

  lemma ClosingStart(w: string, r: string)
    ensures var tail := Closing(w) + r;
            tail != [] && tail[0] == '<' && !(CALL_CLOSE <= tail)
  {
    ClosingChars(w, 0);
    ClosingChars(w, 2);
    var tail := Closing(w) + r;
    assert tail[2] == 'f';
    if CALL_CLOSE <= tail {
      CallCloseStart(tail);
    }
  }

  lemma {:induction false} FindCloseBuilt(body: string, w: string, r: string)
    requires CloseFree(body) && AllSpace(w)
    ensures FindClose(body + (Closing(w) + r)) == Some(|body|)
  {
    var tail := Closing(w) + r;
    if body == [] {
      assert body + tail == tail;
      CloseBuilt(w, r);
    } else {
      ClosingStart(w, r);
      if CloseAt(body + tail).Some? {
        CloseInside(body, tail);
      }
      assert (body + tail)[1..] == body[1..] + tail;
      FindCloseBuilt(body[1..], w, r);
    }
  }

  lemma {:induction false} FindCloseFree(s: string)
    requires FindClose(s).Some?
    ensures CloseFree(s[..FindClose(s).value])
  {
    var i := FindClose(s).value;
    if i > 0 {
      FindCloseFree(s[1..]);
      assert s[..i][1..] == s[1..][..i - 1];
      SubtextMark(s, i);
    }
  }

  lemma {:induction false} FindCloseAfter(x: string, s: string)
    requires FindClose(s).Some?
    ensures FindClose(x + s).Some?
  {
    if x == [] {
      assert x + s == s;
    } else {
      assert (x + s)[1..] == x[1..] + s;
      FindCloseAfter(x[1..], s);
    }
  }

  lemma {:induction false} CloseFreeSuffix(s: string, i: nat)
    requires CloseFree(s) && i <= |s|
    ensures CloseFree(s[i..])
  {
    if i > 0 {
      assert s[1..][i - 1..] == s[i..];
      CloseFreeSuffix(s[1..], i - 1);
    }
  }

  lemma {:induction false} CloseFreePrefix(s: string, j: nat)
    requires CloseFree(s) && j <= |s|
    ensures CloseFree(s[..j])
  {
    if j > 0 {
      assert s[..j][1..] == s[1..][..j - 1];
      CloseFreePrefix(s[1..], j - 1);
      SubtextMark(s, j);
    }
  }

  lemma {:induction false} CloseFreeAfterPlain(p: string, y: string)
    requires NoLt(p) && CloseFree(y)
    ensures CloseFree(p + y)
  {
    if p == [] {
      assert p + y == y;
    } else {
      assert (p + y)[1..] == p[1..] + y;
      CloseFreeAfterPlain(p[1..], y);
      if CloseAt(p + y).Some? {
        FunctionCloseStart(p + y);
      }
    }
  }

  /** A tag other than `</f...` can come before a text free of call ends. */
  lemma CloseFreeAfterTag(tag: string, y: string)
    requires |tag| > 2 && tag[0] == '<' && !(tag[1] == '/' && tag[2] == 'f') && NoLt(tag[1..])
    requires CloseFree(y)
    ensures CloseFree(tag + y)
  {
    CloseFreeAfterPlain(tag[1..], y);
    assert (tag + y)[1..] == tag[1..] + y;
    assert (tag + y)[1] == tag[1] && (tag + y)[2] == tag[2];
    if CloseAt(tag + y).Some? {
      FunctionCloseStart(tag + y);
    }
  }

  // ---- scanning for the end of a parameter ------------------------------------------------

  function FindEnd(s: string): (r: Option<nat>)
    ensures r.Some? ==> r.value + |PARAM_CLOSE| <= |s| && PARAM_CLOSE <= s[r.value..]
  {
    if PARAM_CLOSE <= s then Some(0)
    else if s == [] then None
    else
      match FindEnd(s[1..])
      case None => None
      case Some(i) => Some(i + 1)
  }

  lemma ParamCloseHasOneLt(i: nat)
    requires 0 < i < |PARAM_CLOSE|
    ensures PARAM_CLOSE[i] != '<' && PARAM_CLOSE[i] != '\n'
  {
  }

  /** A `</parameter>` that begins in `x` does not reach a following `<` or newline. */
  lemma EndInside(x: string, tail: string)
    requires x != [] && tail != [] && (tail[0] == '<' || tail[0] == '\n') && PARAM_CLOSE <= x + tail
    ensures PARAM_CLOSE <= x
  {
    if |x| < |PARAM_CLOSE| {
      assert (x + tail)[|x|] == PARAM_CLOSE[|x|];
      ParamCloseHasOneLt(|x|);
    } else {
      assert (x + tail)[..|PARAM_CLOSE|] == x[..|PARAM_CLOSE|];
    }
  }

  lemma {:induction false} FindEndBuilt(x: string, r: string)
    requires EndFree(x)
    ensures FindEnd(x + (PARAM_CLOSE + r)) == Some(|x|)
  {
    var tail := PARAM_CLOSE + r;
    if x == [] {
      assert x + tail == tail;
    } else {
      if PARAM_CLOSE <= x + tail {
        EndInside(x, tail);
      }
      assert (x + tail)[1..] == x[1..] + tail;
      FindEndBuilt(x[1..], r);
    }
  }

  lemma {:induction false} FindEndFree(s: string)
    requires FindEnd(s).Some?
    ensures EndFree(s[..FindEnd(s).value])
  {
    var i := FindEnd(s).value;
    if i > 0 {
      FindEndFree(s[1..]);
      assert s[..i][1..] == s[1..][..i - 1];
      SubtextMark(s, i);
    }
  }

  lemma {:induction false} EndFreeBeforeNewline(x: string)
    requires EndFree(x)
    ensures EndFree(x + "\n")
  {
    if x == [] {
      assert x + "\n" == "\n";
      assert "\n"[1..] == [];
    } else {
      assert (x + "\n")[1..] == x[1..] + "\n";
      EndFreeBeforeNewline(x[1..]);
      if PARAM_CLOSE <= x + "\n" {
        EndInside(x, "\n");
      }
    }
  }
}
