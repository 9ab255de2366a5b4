/** Character classes and string helpers with Python's meaning. */
module Text {

  /** str.isspace, which is also what `\s` matches in a text pattern. */
  predicate IsSpace(c: char) {
    || '\t' <= c <= '\r' || '\U{1c}' <= c <= ' ' || c == '\U{85}' || c == '\U{a0}'
    || c == '\U{1680}' || '\U{2000}' <= c <= '\U{200a}' || c == '\U{2028}' || c == '\U{2029}'
    || c == '\U{202f}' || c == '\U{205f}' || c == '\U{3000}'
  }

  predicate AllSpace(s: string) { forall i :: 0 <= i < |s| ==> IsSpace(s[i]) }

  predicate IsNameStart(c: char) { 'A' <= c <= 'Z' || 'a' <= c <= 'z' || c == '_' }

  predicate IsNameChar(c: char) { IsNameStart(c) || '0' <= c <= '9' }

  /** [A-Za-z_][A-Za-z0-9_]* */
  predicate IsName(s: string) {
    s != [] && IsNameStart(s[0]) && forall i :: 0 <= i < |s| ==> IsNameChar(s[i])
  }

  /** Length of the longest prefix of white space. */
  function Spaces(s: string): (n: nat)
    ensures n <= |s| && AllSpace(s[..n])
    ensures n < |s| ==> !IsSpace(s[n])
  {
    if s == [] || !IsSpace(s[0]) then 0 else 1 + Spaces(s[1..])
  }

  lemma {:induction false} SpacesOf(w: string, r: string)
    requires AllSpace(w) && (r == [] || !IsSpace(r[0]))
    ensures Spaces(w + r) == |w|
  {
    if w == [] {
      assert w + r == r;
    } else {
      assert (w + r)[1..] == w[1..] + r;
      SpacesOf(w[1..], r);
    }
  }

  /** Length of the longest prefix of name characters. */
  function NameLen(s: string): (n: nat)
    ensures n <= |s| && forall i :: 0 <= i < n ==> IsNameChar(s[i])
    ensures n < |s| ==> !IsNameChar(s[n])
  {
    if s == [] || !IsNameChar(s[0]) then 0 else 1 + NameLen(s[1..])
  }

  lemma {:induction false} NameLenOf(name: string, r: string)
    requires forall i :: 0 <= i < |name| ==> IsNameChar(name[i])
    requires r == [] || !IsNameChar(r[0])
    ensures NameLen(name + r) == |name|
  {
    if name == [] {
      assert name + r == r;
    } else {
      assert (name + r)[1..] == name[1..] + r;
      NameLenOf(name[1..], r);
    }
  }

  /** str.rstrip() and str.strip(). */
  function RStrip(s: string): (r: string)
    ensures r <= s
    ensures r == [] || !IsSpace(r[|r| - 1])
    ensures forall i :: |r| <= i < |s| ==> IsSpace(s[i])
  {
    if s == [] || !IsSpace(s[|s| - 1]) then s else RStrip(s[..|s| - 1])
  }

  function Strip(s: string): string {
    RStrip(s[Spaces(s)..])
  }

  predicate Trimmed(s: string) {
    s == [] || (!IsSpace(s[0]) && !IsSpace(s[|s| - 1]))
  }

  lemma {:induction false} RStripOf(s: string, w: string)
    requires AllSpace(w) && (s == [] || !IsSpace(s[|s| - 1]))
    ensures RStrip(s + w) == s
  {
    if w == [] {
      assert s + w == s;
    } else {
      assert (s + w)[..|s + w| - 1] == s + w[..|w| - 1];
      RStripOf(s, w[..|w| - 1]);
    }
  }

  /** Stripping gives a trimmed text, and undoes padding of a trimmed one. */
  lemma StripTrims(s: string)
    ensures Trimmed(Strip(s))
  {
    var t := s[Spaces(s)..];
    if RStrip(t) != [] {
      assert RStrip(t)[0] == t[0];
    }
  }

  lemma StripPadded(a: string, s: string, b: string)
    requires AllSpace(a) && AllSpace(b) && Trimmed(s)
    ensures Strip(a + s + b) == s
  {
    if s == [] {
      assert a + s + b == (a + b) + [];
      SpacesOf(a + b, []);
      assert (a + s + b)[|a + b|..] == [];
    } else {
      assert a + s + b == a + (s + b);
      SpacesOf(a, s + b);
      assert (a + (s + b))[|a|..] == s + b;
      RStripOf(s, b);
    }
  }

  /** Strip takes the white space around a text away and nothing else. */
  lemma StripMeans(s: string) returns (before: string, after: string)
    ensures s == before + Strip(s) + after && AllSpace(before) && AllSpace(after) && Trimmed(Strip(s))
  {
    var n := Spaces(s);
    before, after := s[..n], s[n..][|Strip(s)|..];
    StripTrims(s);
    assert s[n..] == Strip(s) + after;
  }

  lemma StripOfBlank(s: string)
    ensures Strip(s) == "" <==> AllSpace(s)
  {
    var t := s[Spaces(s)..];
    if Strip(s) == "" {
      assert |t| == 0;
      assert s == s[..Spaces(s)];
    }
  }

  /** str(n) for n >= 0. */
  function Decimal(n: nat): string {
    if n < 10 then [Digit(n)] else Decimal(n / 10) + [Digit(n % 10)]
  }

  function Digit(d: nat): char
    requires d < 10
  {
    "0123456789"[d]
  }

  lemma {:induction false} DecimalDigits(n: nat)
    ensures Decimal(n) != [] && forall i :: 0 <= i < |Decimal(n)| ==> '0' <= Decimal(n)[i] <= '9'
  {
    if n >= 10 {
      DecimalDigits(n / 10);
    }
  }

  /** The last digit and the digits before it. */
  lemma DecimalSplits(n: nat)
    ensures var d := Decimal(n);
            && d != [] && d[|d| - 1] == Digit(n % 10)
            && (n < 10 <==> |d| == 1)
            && (n >= 10 ==> d[..|d| - 1] == Decimal(n / 10))
  {
    DecimalDigits(n);
    DecimalDigits(n / 10);
  }

  lemma {:induction false} DecimalInjective(m: nat, n: nat)
    requires Decimal(m) == Decimal(n)
    ensures m == n
  {
    DecimalSplits(m);
    DecimalSplits(n);
    if m >= 10 && n >= 10 {
      DecimalInjective(m / 10, n / 10);
    }
  }

  /** `p in s` */
  predicate Contains(s: string, p: string) {
    exists i :: 0 <= i <= |s| && p <= s[i..]
  }

  /** `sep.join(parts)` */
  function JoinWith(sep: string, parts: seq<string>): string {
    if parts == [] then []
    else if |parts| == 1 then parts[0]
    else JoinWith(sep, parts[..|parts| - 1]) + sep + parts[|parts| - 1]
  }

  /** `a < b` */
  predicate LessText(a: string, b: string) {
    if b == [] then false
    else if a == [] then true
    else a[0] < b[0] || (a[0] == b[0] && LessText(a[1..], b[1..]))
  }

  lemma {:induction false} LessTextAsymmetric(a: string, b: string)
    ensures LessText(a, b) ==> !LessText(b, a) && a != b
  {
    if a != [] && b != [] && a[0] == b[0] {
      LessTextAsymmetric(a[1..], b[1..]);
    }
  }

  lemma {:induction false} LessTextTotal(a: string, b: string)
    ensures LessText(a, b) || LessText(b, a) || a == b
  {
    if a != [] && b != [] && a[0] == b[0] {
      LessTextTotal(a[1..], b[1..]);
      assert a == [a[0]] + a[1..] && b == [b[0]] + b[1..];
    }
  }
}
