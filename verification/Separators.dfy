/** Texts that are joined by "|" before they are hashed. */
module Separators {
  /** The part `p` reaches past the separator behind `q`, and the text behind that one makes up for it. */
  predicate Shifted(p: string, x: string, q: string, y: string)
  {
    |p| > |q| && p[..|q| + 1] == q + "|" && y == p[|q| + 1..] + "|" + x
  }

  lemma ShiftedReadAlike(p: string, x: string, q: string, y: string)
    requires Shifted(p, x, q, y)
    ensures p + "|" + x == q + "|" + y
  {
    var u := p[|q| + 1..];
    assert p == (q + "|") + u;
    assert p + "|" + x == (q + "|") + (u + "|" + x);
  }

  lemma LongerIsShifted(p: string, x: string, q: string, y: string)
    requires p + "|" + x == q + "|" + y && |p| > |q|
    ensures Shifted(p, x, q, y)
  {
    var s := p + "|" + x;
    assert s == (p + "|") + x;
    assert p[..|q| + 1] == s[..|q| + 1] == q + "|";
    assert y == s[|q| + 1..];
    assert s[|q| + 1..] == p[|q| + 1..] + "|" + x;
  }

  /** Texts joined by the separator read alike exactly if their parts are equal, or one is shifted. */
  lemma ReadAlikeIff(p: string, x: string, q: string, y: string)
    ensures p + "|" + x == q + "|" + y <==> (p == q && x == y) || Shifted(p, x, q, y) || Shifted(q, y, p, x)
  {
    var s, t := p + "|" + x, q + "|" + y;
    if Shifted(p, x, q, y) {
      ShiftedReadAlike(p, x, q, y);
    }
    if Shifted(q, y, p, x) {
      ShiftedReadAlike(q, y, p, x);
    }
    if s == t {
      if |p| > |q| {
        LongerIsShifted(p, x, q, y);
      } else if |q| > |p| {
        LongerIsShifted(q, y, p, x);
      } else {
        assert p == s[..|p|] && q == t[..|q|] && x == s[|p| + 1..] && y == t[|q| + 1..];
      }
    }
  }

  /** A shift needs a further separator. */
  lemma ShiftHoldsSeparator(p: string, x: string, q: string, y: string)
    requires Shifted(p, x, q, y)
    ensures p[|q|] == '|' && '|' in p
  {
    assert p[..|q| + 1][|q|] == '|';
  }

  /** Without separators in the left parts, joined texts read alike only if they are equal part by part. */
  lemma PlainReadApart(p: string, x: string, q: string, y: string)
    requires '|' !in p && '|' !in q
    ensures p + "|" + x == q + "|" + y <==> p == q && x == y
  {
    hide Shifted;
    ReadAlikeIff(p, x, q, y);
    if Shifted(p, x, q, y) {
      ShiftHoldsSeparator(p, x, q, y);
    }
    if Shifted(q, y, p, x) {
      ShiftHoldsSeparator(q, y, p, x);
    }
  }

  lemma ShiftHoldsTwo(p: string, x: string, e: string, f: string, y: string)
    requires Shifted(p, x, e + "|" + f, y)
    ensures exists i, j :: 0 <= i < j < |p| && p[i] == '|' == p[j]
  {
    var q := e + "|" + f;
    ShiftHoldsSeparator(p, x, q, y);
    assert p[|e|] == p[..|q| + 1][|e|] == '|';
  }
}
