/** Event values, JSON values, and the hash of an event. The unseen libraries
    (encoding/json, RFC 8785 canonical JSON, SHA-256, Ed25519, time formatting) are
    the fields of Lib; Lawful says what the ledger relies on. */
module Codec {
  import JsonText

  datatype Option<T> = None | Some(value: T)

  /** An instant with a four-digit year, as RFC 3339 can write it. */
  datatype Instant = Instant(year: int, nanos: int)
  type Time = t: Instant | 0 <= t.year <= 9999 witness Instant(1, 0)
  const ZERO_TIME: Time := Instant(1, 0)

  /** A finite double: an integral one by value, any other by its bit pattern. */
  datatype Double = Whole(n: int) | Fraction(bits: int)

  /** The Go values an event can carry. Unsupported stands for what JSON cannot
      express (NaN, infinities, channels, functions). */
  datatype GoValue =
    | GoNil | GoBool(b: bool) | GoString(s: string) | GoUint(n: nat) | GoFloat(d: Double) | GoTime(t: Time)
    | GoList(xs: seq<GoValue>) | GoMap(m: map<string, GoValue>) | Unsupported

  datatype Json =
    | JNull | JBool(b: bool) | JString(s: string) | JNumber(d: Double) | JArray(xs: seq<Json>) | JObject(m: map<string, Json>)

  type Key = nat

  datatype Lib = Lib(
    marshal: GoValue -> string,
    unmarshal: string -> Option<Json>,
    canonical: Json -> string,
    sha256: string -> string,
    format: Time -> string,
    parse: string -> Option<Time>,
    publicKey: Key -> string,
    sign: (Key, string) -> string,
    verify: (string, string, string) -> bool)

  // ---------------------------------------------------------------- numbers

  const TWO53: nat := 0x20_0000_0000_0000

  /** The spacing of doubles around n. */
  function Ulp(n: nat): (u: nat)
    ensures 1 <= u && (n < TWO53 ==> u == 1)
  {
    if n < TWO53 then 1 else 2 * Ulp(n / 2)
  }

  /** The double nearest to n, ties to even. */
  function ToDouble(n: nat): nat
  {
    var u := Ulp(n);
    var q, r := n / u, n % u;
    if 2 * r < u || (2 * r == u && q % 2 == 0) then q * u else (q + 1) * u
  }

  // ---------------------------------------------------------------- JSON and back

  predicate Supported(v: GoValue)
  {
    match v
    case Unsupported => false
    case GoList(xs) => forall i :: 0 <= i < |xs| ==> Supported(xs[i])
    case GoMap(m) => forall k :: k in m ==> Supported(m[k])
    case _ => true
  }

  /** What a value is once it has been through JSON. */
  function Normal(format: Time -> string, v: GoValue): Json
  {
    match v
    case GoNil => JNull
    case GoBool(b) => JBool(b)
    case GoString(s) => JString(s)
    case GoUint(n) => JNumber(Whole(ToDouble(n)))
    case GoFloat(d) => JNumber(d)
    case GoTime(t) => JString(format(t))
    case GoList(xs) => JArray(seq(|xs|, i requires 0 <= i < |xs| => Normal(format, xs[i])))
    case GoMap(m) => JObject(map k | k in m :: Normal(format, m[k]))
    case Unsupported => JNull
  }

  /** The Go value json.Unmarshal builds for an interface{}. */
  function Loaded(j: Json): GoValue
  {
    match j
    case JNull => GoNil
    case JBool(b) => GoBool(b)
    case JString(s) => GoString(s)
    case JNumber(d) => GoFloat(d)
    case JArray(xs) => GoList(seq(|xs|, i requires 0 <= i < |xs| => Loaded(xs[i])))
    case JObject(m) => GoMap(map k | k in m :: Loaded(m[k]))
  }

  /** Loading JSON loses nothing: a loaded value is supported and goes back to the
      JSON it came from. */
  lemma {:induction false} NormalLoaded(format: Time -> string, j: Json)
    ensures Supported(Loaded(j)) && Normal(format, Loaded(j)) == j
  {
    match j {
      case JArray(xs) =>
        forall i | 0 <= i < |xs|
          ensures Supported(Loaded(xs[i])) && Normal(format, Loaded(xs[i])) == xs[i]
        {
          NormalLoaded(format, xs[i]);
        }
        assert Normal(format, Loaded(j)).xs == xs;
      case JObject(m) =>
        forall k | k in m
          ensures Supported(Loaded(m[k])) && Normal(format, Loaded(m[k])) == m[k]
        {
          NormalLoaded(format, m[k]);
        }
        assert Normal(format, Loaded(j)).m == m;
      case _ =>
    }
  }

  // ---------------------------------------------------------------- what the libraries promise

  ghost predicate JsonLaws(lib: Lib)
  {
    (forall v :: Supported(v) ==> lib.unmarshal(lib.marshal(v)) == Some(Normal(lib.format, v)))
    && (forall v :: Supported(v) ==> lib.marshal(v) != "" && (lib.marshal(v) == "null" <==> Normal(lib.format, v) == JNull))
    && (forall i: Json, j: Json :: i.JObject? && j.JObject? && lib.canonical(i) == lib.canonical(j) ==> i == j)
  }

  ghost predicate TimeLaw(lib: Lib)
  {
    forall t: Time :: lib.parse(lib.format(t)).Some? && lib.format(lib.parse(lib.format(t)).value) == lib.format(t)
  }

  ghost predicate CryptoLaws(lib: Lib)
  {
    (forall x :: |lib.sha256(x)| == 64)
    && (forall k: Key, h :: lib.sign(k, h) != "")
    && (forall k: Key, p, h :: lib.verify(p, h, lib.sign(k, h)) <==> p == lib.publicKey(k))
  }

  /** Not part of Lawful: the canonical text of an object has the shape of an object. */
  ghost predicate ObjectTexts(lib: Lib)
  {
    forall j: Json :: j.JObject? ==> JsonText.IsObject(lib.canonical(j))
  }

  ghost predicate Lawful(lib: Lib)
  {
    JsonLaws(lib) && TimeLaw(lib) && CryptoLaws(lib)
  }

  // ---------------------------------------------------------------- the hash

  function Repeat(c: char, n: nat): (s: string)
    ensures |s| == n && forall i :: 0 <= i < n ==> s[i] == c
  {
    if n == 0 then [] else Repeat(c, n - 1) + [c]
  }

  /** The previous hash of the first event. */
  function ZeroHash(): (z: string)
    ensures |z| == 64 && forall i :: 0 <= i < 64 ==> z[i] == '0'
  {
    Repeat('0', 64)
  }

  function Zeros(s: string): nat
  {
    if |s| == 0 then 0 else Zeros(s[..|s| - 1]) + (if s[|s| - 1] == '0' then 1 else 0)
  }

  /** CalculateEventHash: None stands for any of its errors. */
  function EventHash(lib: Lib, prevHash: string, payload: GoValue): Option<string>
  {
    if prevHash == "" then None
    else if Zeros(prevHash) == 64 && prevHash != ZeroHash() then None
    else if payload.GoNil? || !Supported(payload) then None
    else match lib.unmarshal(lib.marshal(payload))
      case None => None
      case Some(normalized) => Some(lib.sha256(prevHash + lib.canonical(normalized)))
  }

  lemma {:induction false} ZerosBound(s: string)
    ensures Zeros(s) <= |s|
    ensures Zeros(s) == |s| ==> forall i :: 0 <= i < |s| ==> s[i] == '0'
  {
    if |s| != 0 {
      ZerosBound(s[..|s| - 1]);
    }
  }

  lemma SixtyFourZeros(s: string)
    requires |s| == 64
    ensures Zeros(s) == 64 ==> s == ZeroHash()
    ensures |ZeroHash()| == 64
  {
    ZerosBound(s);
    if Zeros(s) == 64 {
      assert forall i :: 0 <= i < 64 ==> s[i] == ZeroHash()[i];
    }
  }

  lemma {:induction false} ZerosCounts(s: string)
    ensures Zeros(s) == |set i | 0 <= i < |s| && s[i] == '0'|
  {
    if |s| != 0 {
      var n := |s| - 1;
      ZerosCounts(s[..n]);
      var before := set i | 0 <= i < n && s[..n][i] == '0';
      var all := set i | 0 <= i < |s| && s[i] == '0';
      assert all == if s[n] == '0' then before + {n} else before;
    }
  }

  /** When a hash is computed at all: the previous hash is not empty, and if it holds 64
      zeros it is the zero hash; the payload is there and has a JSON form. */
  lemma EventHashExactly(lib: Lib, prevHash: string, payload: GoValue)
    requires Lawful(lib)
    ensures EventHash(lib, prevHash, payload).Some? <==>
              prevHash != "" && (|set i | 0 <= i < |prevHash| && prevHash[i] == '0'| == 64 ==> prevHash == ZeroHash())
              && !payload.GoNil? && Supported(payload)
    ensures EventHash(lib, prevHash, payload).Some? ==>
              EventHash(lib, prevHash, payload).value == lib.sha256(prevHash + lib.canonical(Normal(lib.format, payload)))
  {
    ZerosCounts(prevHash);
  }

  /** With a 64-character previous hash and a JSON-expressible payload no check of
      CalculateEventHash can fire, and the result is the hash of the plain
      concatenation. */
  lemma EventHashValue(lib: Lib, prevHash: string, payload: GoValue)
    requires Lawful(lib) && |prevHash| == 64 && !payload.GoNil?
    ensures EventHash(lib, prevHash, payload)
            == if Supported(payload) then Some(lib.sha256(prevHash + lib.canonical(Normal(lib.format, payload)))) else None
  {
    SixtyFourZeros(prevHash);
  }

  /** The hash input has no separator; it still splits in one way only, because the
      previous hash has a fixed width. */
  lemma InputSplits(lib: Lib, p: string, i: Json, q: string, j: Json)
    requires Lawful(lib) && i.JObject? && j.JObject? && |p| == |q|
    ensures p + lib.canonical(i) == q + lib.canonical(j) <==> p == q && i == j
  {
    var x, y := lib.canonical(i), lib.canonical(j);
    if p + x == q + y {
      assert p == (p + x)[..|p|] == (q + y)[..|q|] == q;
      assert x == (p + x)[|p|..] == (q + y)[|q|..] == y;
    }
  }

  /** And even for previous hashes of any length, because no object's text is the end of
      another object's text. */
  lemma InputSplitsAnywhere(lib: Lib, p: string, i: Json, q: string, j: Json)
    requires Lawful(lib) && ObjectTexts(lib) && i.JObject? && j.JObject?
    ensures p + lib.canonical(i) == q + lib.canonical(j) <==> p == q && i == j
  {
    if p + lib.canonical(i) == q + lib.canonical(j) {
      JsonText.SplitsOnce(p, lib.canonical(i), q, lib.canonical(j));
    }
  }
}
