/** The laws assumed of the libraries can all hold at once: there is a Lib that meets
    them. Its JSON text is a tagged, self-delimiting code; nothing else depends on it. */
module Consistency {
  import opened Codec
  import JsonText

  ghost function Text(s: string): string
  {
    if |s| == 0 then "." else "," + (Tally(s[0] as int) + Text(s[1..]))
  }

  ghost function Tally(n: nat): string
  {
    if n == 0 then "." else "," + Tally(n - 1)
  }

  ghost function Number(n: int): string
  {
    if n < 0 then "-" + Tally(-n) else "+" + Tally(n)
  }

  ghost function Code(j: Json): string
    decreases j
  {
    match j
    case JNull => "null"
    case JBool(b) => if b then "t" else "f"
    case JString(s) => "s" + Text(s)
    case JNumber(Whole(n)) => "w" + Number(n)
    case JNumber(Fraction(b)) => "b" + Number(b)
    case JArray(xs) => "[" + Items(j, 0)
    case JObject(m) => "o" + Entries(j, m)
  }

  ghost function Items(j: Json, i: nat): string
    requires j.JArray? && i <= |j.xs|
    decreases j, |j.xs| - i
  {
    if i == |j.xs| then "." else "," + (Code(j.xs[i]) + Items(j, i + 1))
  }

  ghost predicate PartOf(j: Json, m: map<string, Json>)
  {
    j.JObject? && forall k :: k in m ==> k in j.m && j.m[k] == m[k]
  }

  ghost function Entries(j: Json, m: map<string, Json>): string
    requires PartOf(j, m)
    decreases j, |m|
  {
    if m == map[] then "."
    else
      var k :| k in m;
      "," + (Text(k) + (Code(m[k]) + Entries(j, m - {k})))
  }

  // ---------------------------------------------------------------- the code is uniquely readable

  lemma {:induction false} TextReads(s: string, t: string, x: string, y: string)
    requires Text(s) + x == Text(t) + y
    ensures s == t && x == y
  {
    assert (Text(s) + x)[0] == Text(s)[0] && (Text(t) + y)[0] == Text(t)[0];
    if |s| == 0 || |t| == 0 {
      assert x == (Text(s) + x)[1..] && y == (Text(t) + y)[1..];
    } else {
      assert Tally(s[0] as int) + (Text(s[1..]) + x) == (Text(s) + x)[1..];
      assert Tally(t[0] as int) + (Text(t[1..]) + y) == (Text(t) + y)[1..];
      TallyReads(s[0] as int, t[0] as int, Text(s[1..]) + x, Text(t[1..]) + y);
      TextReads(s[1..], t[1..], x, y);
      assert s == [s[0]] + s[1..] && t == [t[0]] + t[1..];
    }
  }

  lemma {:induction false} TallyReads(m: nat, n: nat, x: string, y: string)
    requires Tally(m) + x == Tally(n) + y
    ensures m == n && x == y
  {
    assert (Tally(m) + x)[0] == Tally(m)[0] && (Tally(n) + y)[0] == Tally(n)[0];
    if m == 0 || n == 0 {
      assert x == (Tally(m) + x)[1..] && y == (Tally(n) + y)[1..];
    } else {
      assert Tally(m - 1) + x == (Tally(m) + x)[1..] && Tally(n - 1) + y == (Tally(n) + y)[1..];
      TallyReads(m - 1, n - 1, x, y);
    }
  }

  lemma Peel(a: string, b: string, x: string, y: string)
    requires |a| != 0 && |b| != 0 && a + x == b + y
    ensures a[0] == b[0] && a[1..] + x == b[1..] + y
  {
    assert (a + x)[0] == a[0] && (b + y)[0] == b[0];
    assert a[1..] + x == (a + x)[1..] && b[1..] + y == (b + y)[1..];
  }

  lemma NumberReads(m: int, n: int, x: string, y: string)
    requires Number(m) + x == Number(n) + y
    ensures m == n && x == y
  {
    Peel(Number(m), Number(n), x, y);
    var p, q: nat := if m < 0 then -m else m, if n < 0 then -n else n;
    assert Number(m)[1..] == Tally(p) && Number(n)[1..] == Tally(q);
    TallyReads(p, q, x, y);
  }

  lemma CodeTag(i: Json, j: Json, x: string, y: string)
    requires Code(i) + x == Code(j) + y
    ensures Code(i)[0] == Code(j)[0] && Code(i)[1..] + x == Code(j)[1..] + y
  {
    Peel(Code(i), Code(j), x, y);
  }

  lemma {:induction false} CodeReads(i: Json, j: Json, x: string, y: string)
    requires Code(i) + x == Code(j) + y
    ensures i == j && x == y
    decreases i
  {
    CodeTag(i, j, x, y);
    match i {
      case JNull =>
        assert x == (Code(i)[1..] + x)[3..] && y == (Code(j)[1..] + y)[3..];
      case JBool(b) =>
        assert Code(i)[1..] + x == x && Code(j)[1..] + y == y;
      case JString(s) =>
        assert Code(i)[1..] == Text(s) && Code(j)[1..] == Text(j.s);
        TextReads(s, j.s, x, y);
      case JNumber(Whole(n)) =>
        assert Code(i)[1..] == Number(n) && Code(j)[1..] == Number(j.d.n);
        NumberReads(n, j.d.n, x, y);
      case JNumber(Fraction(b)) =>
        assert Code(i)[1..] == Number(b) && Code(j)[1..] == Number(j.d.bits);
        NumberReads(b, j.d.bits, x, y);
      case JArray(xs) =>
        assert Code(i)[1..] == Items(i, 0) && Code(j)[1..] == Items(j, 0);
        ItemsRead(i, j, 0, x, y);
        assert i.xs == j.xs;
      case JObject(m) =>
        assert Code(i)[1..] == Entries(i, m) && Code(j)[1..] == Entries(j, j.m);
        EntriesRead(i, j, m, j.m, x, y);
    }
  }

  lemma Assoc(a: string, b: string, x: string)
    ensures (a + b) + x == a + (b + x)
  {
  }

  lemma ItemsTail(i: Json, k: nat, x: string)
    requires i.JArray? && k < |i.xs|
    ensures Items(i, k)[1..] + x == Code(i.xs[k]) + (Items(i, k + 1) + x)
  {
  }

  lemma {:induction false} ItemsRead(i: Json, j: Json, k: nat, x: string, y: string)
    requires i.JArray? && j.JArray? && k <= |i.xs| && k <= |j.xs|
    requires Items(i, k) + x == Items(j, k) + y
    ensures |i.xs| == |j.xs| && i.xs[k..] == j.xs[k..] && x == y
    decreases i, |i.xs| - k
  {
    Peel(Items(i, k), Items(j, k), x, y);
    if k < |i.xs| && k < |j.xs| {
      ItemsTail(i, k, x);
      ItemsTail(j, k, y);
      CodeReads(i.xs[k], j.xs[k], Items(i, k + 1) + x, Items(j, k + 1) + y);
      ItemsRead(i, j, k + 1, x, y);
      assert i.xs[k..] == [i.xs[k]] + i.xs[k + 1..] && j.xs[k..] == [j.xs[k]] + j.xs[k + 1..];
    } else {
      assert Items(i, k) == Items(j, k) == ".";
      assert Items(i, k)[1..] + x == x && Items(j, k)[1..] + y == y;
    }
  }

  /** The entry a map's code starts with. */
  lemma FirstEntry(j: Json, m: map<string, Json>, x: string) returns (k: string)
    requires PartOf(j, m) && m != map[]
    ensures k in m && PartOf(j, m - {k})
    ensures Entries(j, m)[0] == ',' && Entries(j, m)[1..] + x == Text(k) + (Code(m[k]) + (Entries(j, m - {k}) + x))
  {
    k :| k in m && Entries(j, m) == "," + (Text(k) + (Code(m[k]) + Entries(j, m - {k})));
    assert Entries(j, m)[1..] == Text(k) + (Code(m[k]) + Entries(j, m - {k}));
    Assoc(Text(k), Code(m[k]) + Entries(j, m - {k}), x);
    Assoc(Code(m[k]), Entries(j, m - {k}), x);
  }

  lemma NoEntries(j: Json, m: map<string, Json>, x: string)
    requires PartOf(j, m) && m == map[]
    ensures Entries(j, m)[0] == '.' && Entries(j, m)[1..] + x == x
  {
  }

  lemma {:induction false} EntriesRead(i: Json, j: Json, m: map<string, Json>, n: map<string, Json>, x: string, y: string)
    requires PartOf(i, m) && PartOf(j, n) && Entries(i, m) + x == Entries(j, n) + y
    ensures m == n && x == y
    decreases i, |m|
  {
    Peel(Entries(i, m), Entries(j, n), x, y);
    if m == map[] {
      NoEntries(i, m, x);
      if n != map[] {
        var l := FirstEntry(j, n, y);
      } else {
        NoEntries(j, n, y);
      }
    } else if n == map[] {
      var k := FirstEntry(i, m, x);
      NoEntries(j, n, y);
    } else {
      var k := FirstEntry(i, m, x);
      var l := FirstEntry(j, n, y);
      var restA, restB := Entries(i, m - {k}) + x, Entries(j, n - {l}) + y;
      TextReads(k, l, Code(m[k]) + restA, Code(n[l]) + restB);
      CodeReads(m[k], n[l], restA, restB);
      EntriesRead(i, j, m - {k}, n - {l}, x, y);
      SameEntries(m, n, k);
    }
  }

  lemma SameEntries(m: map<string, Json>, n: map<string, Json>, k: string)
    requires k in m && k in n && m[k] == n[k] && m - {k} == n - {k}
    ensures m == n
  {
    assert m == (m - {k})[k := m[k]] && n == (n - {k})[k := n[k]];
  }

  lemma CodeInjective(i: Json, j: Json)
    requires Code(i) == Code(j)
    ensures i == j
  {
    assert Code(i) + "" == Code(j) + "";
    CodeReads(i, j, "", "");
  }

  // ---------------------------------------------------------------- and has no braces, quotes or backslashes

  predicate Plain(s: string)
  {
    forall i :: 0 <= i < |s| ==> s[i] != '{' && s[i] != '}' && s[i] != '"' && s[i] != '\\'
  }

  lemma {:induction false} PlainTally(n: nat)
    ensures Plain(Tally(n))
  {
    if n != 0 {
      PlainTally(n - 1);
    }
  }

  lemma {:induction false} PlainText(s: string)
    ensures Plain(Text(s))
  {
    if |s| != 0 {
      PlainTally(s[0] as int);
      PlainText(s[1..]);
    }
  }

  lemma {:induction false} PlainItems(j: Json, i: nat)
    requires j.JArray? && i <= |j.xs|
    ensures Plain(Items(j, i))
    decreases j, |j.xs| - i
  {
    if i < |j.xs| {
      PlainCode(j.xs[i]);
      PlainItems(j, i + 1);
    }
  }

  lemma {:induction false} PlainEntries(j: Json, m: map<string, Json>)
    requires PartOf(j, m)
    ensures Plain(Entries(j, m))
    decreases j, |m|
  {
    if m != map[] {
      var k := FirstEntry(j, m, "");
      PlainText(k);
      PlainCode(m[k]);
      PlainEntries(j, m - {k});
      assert Entries(j, m)[1..] + "" == Entries(j, m)[1..];
      assert Plain(Entries(j, m)[1..]);
      assert Entries(j, m) == [','] + Entries(j, m)[1..];
    }
  }

  lemma {:induction false} PlainCode(j: Json)
    ensures Plain(Code(j))
    decreases j
  {
    match j {
      case JString(s) => PlainText(s);
      case JNumber(Whole(n)) => PlainTally(if n < 0 then -n else n);
      case JNumber(Fraction(b)) => PlainTally(if b < 0 then -b else b);
      case JArray(xs) => PlainItems(j, 0);
      case JObject(m) => PlainEntries(j, m);
      case _ =>
    }
  }

  function Braced(s: string): string
  {
    "{" + s + "}"
  }

  lemma {:induction false} PlainInside(s: string, n: nat)
    requires Plain(s) && n <= |s|
    ensures JsonText.After(JsonText.Out(0), Braced(s)[..n + 1]) == JsonText.Out(1)
  {
    var text := Braced(s)[..n + 1];
    assert text[..n] == Braced(s)[..n] && text[0] == '{';
    if n != 0 {
      PlainInside(s, n - 1);
      assert text[n] == s[n - 1];
    }
  }

  lemma BracedIsObject(s: string)
    requires Plain(s)
    ensures JsonText.IsObject(Braced(s))
  {
    var text := Braced(s);
    forall n | 0 < n < |text|
      ensures JsonText.After(JsonText.Out(0), text[..n]) == JsonText.Out(1)
    {
      PlainInside(s, n - 1);
    }
  }

  // ---------------------------------------------------------------- a Lib that meets the laws

  ghost function Decode(s: string): Option<Json>
  {
    if exists j :: Code(j) == s then
      var j :| Code(j) == s;
      Some(j)
    else None
  }

  ghost function Simple(): Lib
  {
    var format: Time -> string := t => "now";
    Lib(v => Code(Normal(format, v)), s => Decode(s), j => Braced(Code(j)), s => ZeroHash(), format, s => Some(ZERO_TIME),
        (k: Key) => Tally(k), (k: Key, h) => Tally(k), (p, h, s) => s == p)
  }

  lemma DecodeCode(j: Json)
    ensures Decode(Code(j)) == Some(j)
  {
    var i :| Code(i) == Code(j) && Decode(Code(j)) == Some(i);
    CodeInjective(i, j);
  }

  /** The assumptions about the libraries are consistent. */
  lemma LawsAreConsistent()
    ensures Lawful(Simple()) && ObjectTexts(Simple())
  {
    var lib := Simple();
    forall v | Supported(v)
      ensures lib.unmarshal(lib.marshal(v)) == Some(Normal(lib.format, v))
      ensures lib.marshal(v) != "" && (lib.marshal(v) == "null" <==> Normal(lib.format, v) == JNull)
    {
      DecodeCode(Normal(lib.format, v));
      if lib.marshal(v) == "null" {
        CodeInjective(Normal(lib.format, v), JNull);
      }
    }
    forall i, j | lib.canonical(i) == lib.canonical(j)
      ensures i == j
    {
      assert Code(i) == Braced(Code(i))[1..|Code(i)| + 1] && Code(j) == Braced(Code(j))[1..|Code(j)| + 1];
      CodeInjective(i, j);
    }
    forall j: Json
      ensures JsonText.IsObject(lib.canonical(j))
    {
      PlainCode(j);
      BracedIsObject(Code(j));
    }
  }
}
