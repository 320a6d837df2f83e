/**
 * The JavaScript string behaviour the app relies on.
 *
 * A Dafny `string` is a sequence of Unicode scalar values; JavaScript stores the
 * same text as UTF-16 code units. `String.prototype.length`, the default order
 * used by `Array.prototype.sort` and `<` are defined on code units, so they are
 * modelled here through `CodeUnits`. `trim` strips the characters ECMAScript
 * calls WhiteSpace and LineTerminator.
 */
module Text {

  /** The UTF-16 code units of one character: one below U+10000, a surrogate pair above. */
  function CodeUnitsOf(c: char): (u: seq<int>)
    ensures 1 <= |u| <= 2
    ensures |u| == 1 <==> c as int < 0x1_0000
  {
    if c as int < 0x1_0000 then [c as int]
    else
      var v := c as int - 0x1_0000;
      [0xD800 + v / 0x400, 0xDC00 + v % 0x400]
  }

  function CodeUnits(s: string): (u: seq<int>)
    ensures |u| >= |s|
  {
    if s == [] then [] else CodeUnitsOf(s[0]) + CodeUnits(s[1..])
  }

  /** `s.length` in JavaScript. */
  function Length(s: string): nat
  {
    |CodeUnits(s)|
  }

  /** A text made only of characters below U+10000 has one code unit per character. */
  lemma {:induction false} LengthOfBasicText(s: string)
    requires forall i :: 0 <= i < |s| ==> s[i] as int < 0x1_0000
    ensures Length(s) == |s|
  {
    if s != [] {
      LengthOfBasicText(s[1..]);
    }
  }

  /** Lexicographic order on code units: a proper prefix comes first. */
  predicate LexLess(x: seq<int>, y: seq<int>)
  {
    if x == [] then y != []
    else if y == [] then false
    else if x[0] != y[0] then x[0] < y[0]
    else LexLess(x[1..], y[1..])
  }

  lemma {:induction false} LexLessTrichotomy(x: seq<int>, y: seq<int>)
    ensures x == y || LexLess(x, y) || LexLess(y, x)
    ensures !(LexLess(x, y) && LexLess(y, x))
  {
    if x != [] && y != [] && x[0] == y[0] {
      LexLessTrichotomy(x[1..], y[1..]);
      if x[1..] == y[1..] {
        assert x == [x[0]] + x[1..] && y == [y[0]] + y[1..];
      }
    }
  }

  /** JavaScript's `a < b` on strings: never between equal strings, never both ways. */
  predicate Less(a: string, b: string)
    ensures Less(a, b) ==> a != b && !LexLess(CodeUnits(b), CodeUnits(a))
  {
    LexLessTrichotomy(CodeUnits(a), CodeUnits(b));
    LexLessTrichotomy(CodeUnits(b), CodeUnits(a));
    LexLess(CodeUnits(a), CodeUnits(b))
  }

  /** Two different texts never have the same UTF-16 form. */
  lemma {:induction false} CodeUnitsInjective(a: string, b: string)
    requires CodeUnits(a) == CodeUnits(b)
    ensures a == b
  {
    if a != [] && b != [] {
      var ua, ub := CodeUnitsOf(a[0]), CodeUnitsOf(b[0]);
      assert CodeUnits(a) == ua + CodeUnits(a[1..]);
      assert CodeUnits(b) == ub + CodeUnits(b[1..]);
      assert CodeUnits(a)[0] == ua[0] && CodeUnits(b)[0] == ub[0];
      // a surrogate (U+D800..U+DFFF) is never a character of its own
      assert |ua| == |ub|;
      assert ua == CodeUnits(a)[..|ua|] && ub == CodeUnits(b)[..|ub|];
      if |ua| == 1 {
        assert a[0] == b[0];
      } else {
        var va, vb := a[0] as int - 0x1_0000, b[0] as int - 0x1_0000;
        assert va / 0x400 == vb / 0x400 && va % 0x400 == vb % 0x400;
        assert va == 0x400 * (va / 0x400) + va % 0x400;
        assert vb == 0x400 * (vb / 0x400) + vb % 0x400;
        assert a[0] == b[0];
      }
      assert CodeUnits(a)[|ua|..] == CodeUnits(a[1..]);
      assert CodeUnits(b)[|ub|..] == CodeUnits(b[1..]);
      CodeUnitsInjective(a[1..], b[1..]);
      assert a == [a[0]] + a[1..] && b == [b[0]] + b[1..];
    }
  }

  /** String `<` is a strict total order: of two different strings exactly one is smaller. */
  lemma {:induction false} LessTotal(a: string, b: string)
    ensures !Less(a, a)
    ensures a != b ==> Less(a, b) || Less(b, a)
    ensures !(Less(a, b) && Less(b, a))
  {
    LexLessTrichotomy(CodeUnits(a), CodeUnits(b));
    LexLessTrichotomy(CodeUnits(a), CodeUnits(a));
    if CodeUnits(a) == CodeUnits(b) {
      CodeUnitsInjective(a, b);
    }
  }

  /** WhiteSpace and LineTerminator code points of ECMAScript, which `trim` removes. */
  predicate IsWhitespace(c: char)
  {
    || c == '\t' || c == '\n' || c == '\U{000B}' || c == '\U{000C}' || c == '\r'
    || c == ' ' || c == '\U{00A0}' || c == '\U{1680}'
    || ('\U{2000}' <= c <= '\U{200A}')
    || c == '\U{2028}' || c == '\U{2029}' || c == '\U{202F}' || c == '\U{205F}'
    || c == '\U{3000}' || c == '\U{FEFF}'
  }

  predicate AllWhitespace(s: string)
  {
    forall i :: 0 <= i < |s| ==> IsWhitespace(s[i])
  }

  /** `s.trimStart()`. */
  function TrimStart(s: string): string
  {
    if s != [] && IsWhitespace(s[0]) then TrimStart(s[1..]) else s
  }

  /** `s.trimEnd()`. */
  function TrimEnd(s: string): string
  {
    if s != [] && IsWhitespace(s[|s| - 1]) then TrimEnd(s[..|s| - 1]) else s
  }

  /** `s.trim()`: never longer than the text, and neither starts nor ends with whitespace. */
  function Trim(s: string): (r: string)
    ensures |r| <= |s|
    ensures r == [] || (!IsWhitespace(r[0]) && !IsWhitespace(r[|r| - 1]))
  {
    var u := TrimStart(s);
    TrimStartSpec(s);
    TrimEndSpec(u);
    var t := TrimEnd(u);
    assert t != [] ==> t[0] == u[0];
    t
  }

  /** `trimStart` drops a prefix that is all whitespace and leaves a text that does not start with whitespace. */
  lemma {:induction false} TrimStartSpec(s: string)
    ensures var r := TrimStart(s);
      && |r| <= |s| && r == s[|s| - |r|..]
      && AllWhitespace(s[..|s| - |r|])
      && (r == [] || !IsWhitespace(r[0]))
  {
    if s != [] && IsWhitespace(s[0]) {
      TrimStartSpec(s[1..]);
      var r := TrimStart(s);
      assert s[1..][|s| - 1 - |r|..] == s[|s| - |r|..];
      assert forall i :: 0 < i < |s| - |r| ==> s[i] == s[1..][..|s| - 1 - |r|][i - 1];
    } else {
      assert s[|s| - |s|..] == s;
    }
  }

  /** `trimEnd` drops a suffix that is all whitespace and leaves a text that does not end with whitespace. */
  lemma {:induction false} TrimEndSpec(s: string)
    ensures var r := TrimEnd(s);
      && |r| <= |s| && r == s[..|r|]
      && AllWhitespace(s[|r|..])
      && (r == [] || !IsWhitespace(r[|r| - 1]))
  {
    if s != [] && IsWhitespace(s[|s| - 1]) {
      var p := s[..|s| - 1];
      TrimEndSpec(p);
      var r := TrimEnd(s);
      assert p[..|r|] == s[..|r|];
      assert forall i :: |r| <= i < |s| - 1 ==> s[i] == p[|r|..][i - |r|];
    } else {
      assert s[..|s|] == s;
    }
  }

  /** `!s.trim()` holds exactly when the text is all whitespace (the empty text included). */
  lemma {:induction false} TrimEmptyIff(s: string)
    ensures Trim(s) == [] <==> AllWhitespace(s)
  {
    var t := TrimStart(s);
    TrimStartSpec(s);
    TrimEndSpec(t);
    var k := |s| - |t|;
    if t != [] {
      assert t[0] == s[k];
    }
    if Trim(s) == [] {
      assert t[0..] == t;
      AllWhitespaceConcat(s[..k], t);
      assert s == s[..k] + t;
    }
  }

  lemma {:induction false} AllWhitespaceConcat(a: string, b: string)
    requires AllWhitespace(a) && AllWhitespace(b)
    ensures AllWhitespace(a + b)
  {
    forall i | 0 <= i < |a + b| ensures IsWhitespace((a + b)[i]) {
      if i >= |a| {
        assert (a + b)[i] == b[i - |a|];
      }
    }
  }

  /**
   * Trim characterised without reference to how it is computed: whitespace on
   * both sides of a text that neither starts nor ends with whitespace is
   * exactly what `trim` removes.
   */
  lemma {:induction false} TrimOfPadded(lead: string, t: string, trail: string)
    requires AllWhitespace(lead) && AllWhitespace(trail)
    requires t == [] || (!IsWhitespace(t[0]) && !IsWhitespace(t[|t| - 1]))
    requires t == [] ==> trail == []
    ensures Trim(lead + t + trail) == t
  {
    var u := t + trail;
    assert u != [] ==> u[0] == t[0];
    TrimStartOfPadded(lead, u);
    assert lead + t + trail == lead + u;
    TrimEndOfPadded(t, trail);
  }

  lemma {:induction false} TrimStartOfPadded(lead: string, u: string)
    requires AllWhitespace(lead)
    requires u == [] || !IsWhitespace(u[0])
    ensures TrimStart(lead + u) == u
  {
    if lead != [] {
      assert (lead + u)[1..] == lead[1..] + u;
      TrimStartOfPadded(lead[1..], u);
    }
  }

  lemma {:induction false} TrimEndOfPadded(t: string, trail: string)
    requires AllWhitespace(trail)
    requires t == [] || !IsWhitespace(t[|t| - 1])
    requires t == [] ==> trail == []
    ensures TrimEnd(t + trail) == t
  {
    if trail != [] {
      assert (t + trail)[..|t + trail| - 1] == t + trail[..|trail| - 1];
      TrimEndOfPadded(t, trail[..|trail| - 1]);
    }
  }

  /** Trimming twice is trimming once. */
  lemma TrimIdempotent(s: string)
    ensures Trim(Trim(s)) == Trim(s)
  {
    var t := Trim(s);
    TrimOfPadded([], t, []);
    assert [] + t + [] == t;
  }
}
