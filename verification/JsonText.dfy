/** The lexical shape of a JSON object, as section 4 of RFC 8259 gives it: braces outside
    strings balance, quotes delimit strings, backslashes occur inside strings only. Enough
    to see that no object's text is the end of another object's text. */
module JsonText {

  /** What a reader knows after some text: outside or inside a string, and how many
      braces are open. */
  datatype Scan = Out(depth: nat) | In(depth: nat) | Escaped(depth: nat) | Bad

  function Read(s: Scan, c: char): Scan
  {
    match s
    case Out(d) =>
      if c == '{' then Out(d + 1)
      else if d == 0 || c == '\\' then Bad
      else if c == '"' then In(d)
      else if c == '}' then Out(d - 1)
      else Out(d)
    case In(d) => if c == '"' then Out(d) else if c == '\\' then Escaped(d) else In(d)
    case Escaped(d) => In(d)
    case Bad => Bad
  }

  function After(s: Scan, text: string): Scan
  {
    if |text| == 0 then s else Read(After(s, text[..|text| - 1]), text[|text| - 1])
  }

  /** The braces close at the last character and not before. */
  predicate IsObject(text: string)
  {
    |text| != 0 && After(Out(0), text) == Out(0) && forall n :: 0 < n < |text| ==> After(Out(0), text[..n]) != Out(0)
  }

  lemma {:induction false} AfterCat(s: Scan, a: string, b: string)
    ensures After(s, a + b) == After(After(s, a), b)
  {
    if |b| == 0 {
      assert a + b == a;
    } else {
      assert (a + b)[..|a + b| - 1] == a + b[..|b| - 1];
      AfterCat(s, a, b[..|b| - 1]);
    }
  }

  lemma {:induction false} GoodBefore(s: Scan, text: string, n: nat)
    requires n <= |text| && After(s, text) != Bad
    ensures After(s, text[..n]) != Bad
  {
    if n < |text| {
      assert text[..|text| - 1][..n] == text[..n];
      GoodBefore(s, text[..|text| - 1], n);
    } else {
      assert text[..n] == text;
    }
  }

  function Deeper(s: Scan, d: nat): Scan
  {
    match s
    case Out(e) => Out(e + d)
    case In(e) => In(e + d)
    case Escaped(e) => Escaped(e + d)
    case Bad => Bad
  }

  /** Inside another object the same text is read the same way, only deeper. */
  lemma {:induction false} ReadsDeeper(text: string, d: nat)
    requires After(Out(0), text) != Bad
    ensures After(Out(d), text) == Deeper(After(Out(0), text), d)
  {
    if |text| != 0 {
      ReadsDeeper(text[..|text| - 1], d);
    }
  }

  /** One reader is inside a string exactly when the other is outside. */
  predicate Opposed(s: Scan, t: Scan)
  {
    (s.Out? && t.In?) || (s.In? && t.Out?)
  }

  /** A reading that starts inside a string takes every closing quote for an opening one,
      up to the end. */
  lemma {:induction false} StaysOpposed(text: string, s: Scan)
    requires |text| != 0 && (s.In? || s.Escaped?) && After(Out(0), text) != Bad && After(s, text) != Bad
    ensures Opposed(After(Out(0), text), After(s, text))
  {
    var n := |text| - 1;
    GoodBefore(Out(0), text, n);
    GoodBefore(s, text, n);
    if n != 0 {
      StaysOpposed(text[..n], s);
    }
  }

  /** No object's text is the end of another object's text. */
  lemma SuffixFree(p: string, x: string, y: string)
    requires IsObject(x) && IsObject(y) && p + x == y
    ensures p == ""
  {
    if p != "" {
      var s := After(Out(0), p);
      AfterCat(Out(0), p, x);
      GoodBefore(Out(0), y, |p|);
      assert y[..|p|] == p;
      if s.Out? {
        ReadsDeeper(x, s.depth);
      } else {
        StaysOpposed(x, s);
      }
    }
  }

  /** So a text followed by an object splits in one way only. */
  lemma SplitsOnce(p: string, x: string, q: string, y: string)
    requires IsObject(x) && IsObject(y) && p + x == q + y
    ensures p == q && x == y
  {
    var all := p + x;
    assert x == all[|p|..] && y == all[|q|..];
    if |p| <= |q| {
      var w := all[|p|..|q|];
      assert w + y == x;
      SuffixFree(w, y, x);
    } else {
      var w := all[|q|..|p|];
      assert w + x == y;
      SuffixFree(w, x, y);
    }
    assert p == all[..|p|] && q == all[..|q|];
  }
}
