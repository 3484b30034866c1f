/** The label pattern: anchoring, compilation and matching. The RE2 engine itself
    is a parameter: a compiler that may report a syntax error and a matcher for
    compiled expressions. */
module Regex {
  import opened Errors

  /** A compiled expression, identified by the text it was compiled from. */
  datatype Regexp = Regexp(expr: string)

  datatype Engine = Engine(syntaxError: string -> Option<string>, matchString: (string, string) -> bool)

  /** fmt.Sprintf("^%s$", pattern): the pattern between a start and an end anchor.
      The anchors bind tighter than a top-level `|`, so the whole label is matched
      only when the pattern has no top-level alternation. */
  function Anchor(pattern: string): (expr: string)
    ensures |expr| == |pattern| + 2
    ensures expr[0] == '^' && expr[|expr| - 1] == '$'
    ensures expr[1..|expr| - 1] == pattern
  {
    "^" + pattern + "$"
  }

  /** Two patterns anchor to the same expression only if they are the same pattern. */
  lemma AnchorInjective(p: string, q: string)
    requires Anchor(p) == Anchor(q)
    ensures p == q
  {
    assert p == Anchor(p)[1..|Anchor(p)| - 1];
  }

  /** regexp.Compile: succeeds with the expression exactly as given, or reports the engine's error. */
  function Compile(engine: Engine, expr: string): (r: Result<Regexp>)
    ensures r.Ok? <==> engine.syntaxError(expr).None?
    ensures r.Ok? ==> r.value.expr == expr
    ensures r.Err? ==> r.error == PatternInvalid(engine.syntaxError(expr).value)
  {
    match engine.syntaxError(expr)
    case Some(e) => Err(PatternInvalid(e))
    case None => Ok(Regexp(expr))
  }

  /** (*regexp.Regexp).MatchString, as a predicate on labels. */
  function Matcher(engine: Engine, re: Regexp): string -> bool
  {
    text => engine.matchString(re.expr, text)
  }

  /** The default label pattern, anchored. */
  const DefaultExpr: string := "^eu-[0-9]+$"

  predicate IsDigit(c: char) { '0' <= c <= '9' }

  /** What ^eu-[0-9]+$ accepts: "eu-" followed by one or more decimal digits and nothing else. */
  predicate EuLabel(text: string)
  {
    && |text| >= 4
    && text[..3] == "eu-"
    && forall i :: 3 <= i < |text| ==> IsDigit(text[i])
  }

  /** An engine that matches the default expression as RE2 does. */
  ghost predicate MatchesDefaultAsRe2(engine: Engine)
  {
    forall text :: engine.matchString(DefaultExpr, text) == EuLabel(text)
  }

  lemma EuLabelExamples()
    ensures EuLabel("eu-1") && EuLabel("eu-22")
    ensures !EuLabel("us-1") && !EuLabel("eu-") && !EuLabel("eu-1a") && !EuLabel("xeu-1")
  {
    assert "us-1"[..3] != "eu-" by { assert "us-1"[0] == 'u'; }
    assert "xeu-1"[..3] != "eu-" by { assert "xeu-1"[0] == 'x'; }
    assert !IsDigit("eu-1a"[4]);
  }
}
