/** Policy evaluation: the first rule that matches a request decides. */
module Policy {
  import opened Codec

  const MAX_POLICIES: nat := 256
  const MAX_PATTERNS: nat := 128
  const MAX_CONDITIONS: nat := 64

  datatype Rule = Rule(id: string, matchMethods: seq<string>, conditions: seq<map<string, string>>, redact: seq<string>)

  datatype Action = Allow | Tag | Redact

  /** A 64-bit float as comparisons see it. */
  datatype Float = NaN | NegInf | Finite(r: real) | PosInf

  predicate Less(a: Float, b: Float)
  {
    match (a, b)
    case (Finite(x), Finite(y)) => x < y
    case (NegInf, Finite(_)) => true
    case (NegInf, PosInf) => true
    case (Finite(_), PosInf) => true
    case _ => false
  }

  predicate AtMost(a: Float, b: Float)
  {
    Less(a, b) || (a == b && !a.NaN?)
  }

  /** Printing a value, parsing a number, and the value of a double. */
  datatype Formats = Formats(show: GoValue -> string, parseFloat: string -> Option<Float>, value: Double -> real)

  function ToFloat(fm: Formats, v: GoValue): Option<Float>
  {
    match v
    case GoFloat(d) => Some(Finite(fm.value(d)))
    case GoString(s) => fm.parseFloat(s)
    case _ => None
  }

  // ---------------------------------------------------------------- patterns

  /** MatchPattern: exact, or a prefix before a final star. */
  predicate MatchPattern(pattern: string, name: string)
  {
    if pattern == "" || name == "" then false
    else if pattern == name then true
    else if pattern[|pattern| - 1] == '*' then pattern[..|pattern| - 1] <= name
    else false
  }

  lemma MatchPatternMeaning(pattern: string, name: string)
    ensures MatchPattern(pattern, name) <==>
              pattern != "" && name != ""
              && (pattern == name || exists stem, rest :: pattern == stem + "*" && name == stem + rest)
  {
    if pattern != name && MatchPattern(pattern, name) {
      var stem := pattern[..|pattern| - 1];
      assert pattern == stem + "*" && name == stem + name[|stem|..];
    }
    if stem, rest :| pattern == stem + "*" && name == stem + rest {
      assert pattern[..|pattern| - 1] == stem;
    }
  }

  // ---------------------------------------------------------------- conditions

  function Get(c: map<string, string>, k: string): string
  {
    if k in c then c[k] else ""
  }

  /** One condition: the key must be present; an unknown operator asks for no more. */
  predicate Holds(fm: Formats, c: map<string, string>, params: map<string, GoValue>)
  {
    Get(c, "key") in params
    && var v, op, target := params[Get(c, "key")], Get(c, "operator"), Get(c, "value");
       if op == "eq" then fm.show(v) == target
       else if op in {"gt", "lt", "gte", "lte"} then
         ToFloat(fm, v).Some? && fm.parseFloat(target).Some?
         && var a, b := ToFloat(fm, v).value, fm.parseFloat(target).value;
            (op == "gt" ==> Less(b, a)) && (op == "lt" ==> Less(a, b))
            && (op == "gte" ==> AtMost(b, a)) && (op == "lte" ==> AtMost(a, b))
       else true
  }

  /** A condition with an operator and two numbers. */
  predicate Compares(fm: Formats, c: map<string, string>, params: map<string, GoValue>, op: string, x: Float, y: Float)
  {
    Get(c, "key") in params && Get(c, "operator") == op
    && ToFloat(fm, params[Get(c, "key")]) == Some(x) && fm.parseFloat(Get(c, "value")) == Some(y)
  }

  /** The numeric operators on finite numbers, by name. */
  lemma OperatorsCompare(fm: Formats, c: map<string, string>, params: map<string, GoValue>, op: string, x: real, y: real)
    requires Compares(fm, c, params, op, Finite(x), Finite(y))
    ensures op == "gt" ==> (Holds(fm, c, params) <==> x > y)
    ensures op == "lt" ==> (Holds(fm, c, params) <==> x < y)
    ensures op == "gte" ==> (Holds(fm, c, params) <==> x >= y)
    ensures op == "lte" ==> (Holds(fm, c, params) <==> x <= y)
  {
  }

  /** With a NaN on either side no comparison holds; beyond all finite numbers lie the infinities. */
  lemma OperatorsAtTheEdges(fm: Formats, c: map<string, string>, params: map<string, GoValue>, op: string, a: Float, b: Float)
    requires Compares(fm, c, params, op, a, b) && op in {"gt", "lt", "gte", "lte"}
    ensures a.NaN? || b.NaN? ==> !Holds(fm, c, params)
    ensures a.PosInf? && b.Finite? ==> (Holds(fm, c, params) <==> op in {"gt", "gte"})
    ensures a.NegInf? && b.Finite? ==> (Holds(fm, c, params) <==> op in {"lt", "lte"})
    ensures a.Finite? && b.PosInf? ==> (Holds(fm, c, params) <==> op in {"lt", "lte"})
    ensures a.Finite? && b.NegInf? ==> (Holds(fm, c, params) <==> op in {"gt", "gte"})
  {
  }

  /** What holds apart from numbers: a missing key never, equality by the printed value, a
      comparison never with what is no number, an unknown operator always. */
  lemma OperatorsOtherwise(fm: Formats, c: map<string, string>, params: map<string, GoValue>)
    ensures Get(c, "key") !in params ==> !Holds(fm, c, params)
    ensures Get(c, "key") in params ==>
              var v, op, target := params[Get(c, "key")], Get(c, "operator"), Get(c, "value");
              (op == "eq" ==> (Holds(fm, c, params) <==> fm.show(v) == target))
              && (op in {"gt", "lt", "gte", "lte"} && (ToFloat(fm, v).None? || fm.parseFloat(target).None?) ==> !Holds(fm, c, params))
              && (op !in {"eq", "gt", "lt", "gte", "lte"} ==> Holds(fm, c, params))
  {
  }

  /** Which values are numbers: doubles by value, strings that parse, nothing else. */
  lemma NumbersAre(fm: Formats, v: GoValue)
    ensures v.GoFloat? ==> ToFloat(fm, v) == Some(Finite(fm.value(v.d)))
    ensures v.GoString? ==> ToFloat(fm, v) == fm.parseFloat(v.s)
    ensures !v.GoFloat? && !v.GoString? ==> ToFloat(fm, v).None?
  {
  }

  predicate AllHold(fm: Formats, cs: seq<map<string, string>>, params: Option<map<string, GoValue>>)
  {
    |cs| == 0
    || (params.Some? && |cs| <= MAX_CONDITIONS && forall i :: 0 <= i < |cs| ==> Holds(fm, cs[i], params.value))
  }

  method CheckConditions(fm: Formats, cs: seq<map<string, string>>, params: Option<map<string, GoValue>>) returns (ok: bool)
    ensures ok == AllHold(fm, cs, params)
  {
    if |cs| == 0 {
      return true;
    }
    if params.None? || |cs| > MAX_CONDITIONS {
      return false;
    }
    var i := 0;
    while i < MAX_CONDITIONS && i < |cs|
      invariant 0 <= i <= |cs|
      invariant forall j :: 0 <= j < i ==> Holds(fm, cs[j], params.value)
    {
      var key, op, target := Get(cs[i], "key"), Get(cs[i], "operator"), Get(cs[i], "value");
      if key !in params.value {
        return false;
      }
      var v := params.value[key];
      if op == "eq" {
        if fm.show(v) != target {
          return false;
        }
      } else if op == "gt" || op == "lt" || op == "gte" || op == "lte" {
        var a, b := ToFloat(fm, v), fm.parseFloat(target);
        if a.None? || b.None? {
          return false;
        }
        if op == "gt" && !Less(b.value, a.value) {
          return false;
        }
        if op == "lt" && !Less(a.value, b.value) {
          return false;
        }
        if op == "gte" && !AtMost(b.value, a.value) {
          return false;
        }
        if op == "lte" && !AtMost(a.value, b.value) {
          return false;
        }
      }
      i := i + 1;
    }
    ok := true;
  }

  // ---------------------------------------------------------------- rules

  predicate OverLimit(r: Rule)
  {
    |r.matchMethods| > MAX_PATTERNS || |r.conditions| > MAX_CONDITIONS
  }

  predicate Matches(fm: Formats, r: Rule, name: string, params: Option<map<string, GoValue>>)
  {
    (exists j :: 0 <= j < |r.matchMethods| && MatchPattern(r.matchMethods[j], name)) && AllHold(fm, r.conditions, params)
  }

  /** A rule that ends the search: it matches, or it is too long to be looked at. */
  predicate Decides(fm: Formats, r: Rule, name: string, params: Option<map<string, GoValue>>)
  {
    OverLimit(r) || Matches(fm, r, name, params)
  }

  predicate FirstToDecide(fm: Formats, rules: seq<Rule>, name: string, params: Option<map<string, GoValue>>, k: nat)
  {
    k < |rules| && Decides(fm, rules[k], name, params)
    && forall i :: 0 <= i < k ==> !Decides(fm, rules[i], name, params)
  }

  datatype Verdict = Error | Verdict(action: Action, rule: Option<nat>)

  /** The lowest-index matching rule decides; none means allow; a rule over the limits
      that comes first means an error. */
  ghost predicate IsVerdict(fm: Formats, rules: seq<Rule>, name: string, params: Option<map<string, GoValue>>, v: Verdict)
  {
    if name == "" || |rules| > MAX_POLICIES then v == Error
    else
      (v == Verdict(Allow, None) <==> forall i :: 0 <= i < |rules| ==> !Decides(fm, rules[i], name, params))
      && (v != Verdict(Allow, None) ==>
            exists k: nat :: FirstToDecide(fm, rules, name, params, k)
                        && v == if OverLimit(rules[k]) then Error
                                else Verdict(if |rules[k].redact| > 0 then Redact else Tag, Some(k)))
  }

  /** The inner loop: some pattern matches and the conditions hold. */
  method RuleMatches(fm: Formats, r: Rule, name: string, params: Option<map<string, GoValue>>) returns (ok: bool)
    requires !OverLimit(r)
    ensures ok == Matches(fm, r, name, params)
  {
    var j := 0;
    while j < MAX_PATTERNS && j < |r.matchMethods|
      invariant 0 <= j <= |r.matchMethods|
      invariant forall k :: 0 <= k < j && MatchPattern(r.matchMethods[k], name) ==> !AllHold(fm, r.conditions, params)
    {
      if MatchPattern(r.matchMethods[j], name) {
        var conditionsHold := true;
        if |r.conditions| > 0 {
          conditionsHold := CheckConditions(fm, r.conditions, params);
        }
        if conditionsHold {
          return true;
        }
      }
      j := j + 1;
    }
    ok := false;
  }

  method EvaluatePolicy(fm: Formats, rules: seq<Rule>, name: string, params: Option<map<string, GoValue>>)
    returns (v: Verdict)
    ensures IsVerdict(fm, rules, name, params, v)
  {
    if name == "" || |rules| > MAX_POLICIES {
      return Error;
    }
    var i := 0;
    while i < MAX_POLICIES && i < |rules|
      invariant 0 <= i <= |rules|
      invariant forall k :: 0 <= k < i ==> !Decides(fm, rules[k], name, params)
    {
      if |rules[i].matchMethods| > MAX_PATTERNS || |rules[i].conditions| > MAX_CONDITIONS {
        assert FirstToDecide(fm, rules, name, params, i);
        return Error;
      }
      var matched := RuleMatches(fm, rules[i], name, params);
      if matched {
        assert FirstToDecide(fm, rules, name, params, i);
        return Verdict(if |rules[i].redact| > 0 then Redact else Tag, Some(i));
      }
      i := i + 1;
    }
    v := Verdict(Allow, None);
  }

  /** Appending rules never changes the verdict of a request some rule already matched. */
  lemma AppendKeepsVerdict(fm: Formats, rules: seq<Rule>, more: seq<Rule>, name: string,
                           params: Option<map<string, GoValue>>, v: Verdict, w: Verdict)
    requires |rules| + |more| <= MAX_POLICIES
    requires IsVerdict(fm, rules, name, params, v) && IsVerdict(fm, rules + more, name, params, w)
    requires v != Verdict(Allow, None)
    ensures w == v
  {
    if name != "" {
      var k: nat :| FirstToDecide(fm, rules, name, params, k)
                    && v == if OverLimit(rules[k]) then Error
                            else Verdict(if |rules[k].redact| > 0 then Redact else Tag, Some(k));
      assert (rules + more)[k] == rules[k];
      assert !(forall i :: 0 <= i < |rules + more| ==> !Decides(fm, (rules + more)[i], name, params));
      var l: nat :| FirstToDecide(fm, rules + more, name, params, l)
                    && w == if OverLimit((rules + more)[l]) then Error
                            else Verdict(if |(rules + more)[l].redact| > 0 then Redact else Tag, Some(l));
      assert l <= k;
      assert (rules + more)[l] == rules[l];
      assert l == k;
    }
  }

  /** First match by name: in a policy of at most 256 rules, if rule k has at most 128
      patterns and 64 conditions, one of its patterns matches and all its conditions hold,
      and no earlier rule matches or is longer than that, then rule k decides, to redact if
      it names fields and to tag otherwise. */
  lemma FirstMatchDecides(fm: Formats, rules: seq<Rule>, name: string, params: map<string, GoValue>, k: nat, j: nat, v: Verdict)
    requires name != "" && |rules| <= 256 && k < |rules| && |rules[k].matchMethods| <= 128 && |rules[k].conditions| <= 64
    requires j < |rules[k].matchMethods| && MatchPattern(rules[k].matchMethods[j], name)
    requires forall i :: 0 <= i < |rules[k].conditions| ==> Holds(fm, rules[k].conditions[i], params)
    requires forall i :: 0 <= i < k ==>
               |rules[i].matchMethods| <= 128 && |rules[i].conditions| <= 64 && !Matches(fm, rules[i], name, Some(params))
    requires IsVerdict(fm, rules, name, Some(params), v)
    ensures v == Verdict(if rules[k].redact == [] then Tag else Redact, Some(k))
  {
    assert Decides(fm, rules[k], name, Some(params));
    assert FirstToDecide(fm, rules, name, Some(params), k);
    var l: nat :| FirstToDecide(fm, rules, name, Some(params), l)
                  && v == if OverLimit(rules[l]) then Error
                          else Verdict(if |rules[l].redact| > 0 then Redact else Tag, Some(l));
    assert l == k;
  }
}
