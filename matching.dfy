/** The step registry's entries and how `findStepDef` picks one. The
    regular-expression engine is not modelled: it is a pair of functions
    supplied from outside, as is the float syntax check of `strconv`. */
module Matching {
  import opened Wrappers
  import opened Steps

  /** A compiled `*regexp.Regexp`; `String()` gives back its source. */
  datatype Regex = Regex(source: string)

  /** `stepDef`: a pattern and the callback it runs. */
  datatype StepDef = StepDef(expr: Regex, f: Callback)

  /** The library behaviour the core calls without defining: `MatchString`,
      `len(FindAll(text, -1))`, and whether `ParseFloat(s, 32)` succeeds. */
  datatype Engine = Engine(
    matches: (Regex, string) -> bool,
    count: (Regex, string) -> nat,
    isFloat32: string -> bool)

  /** Go's regexp: a text matches exactly when at least one match is found. */
  ghost predicate Coherent(e: Engine) {
    forall x: Regex, t: string :: e.matches(x, t) <==> e.count(x, t) > 0
  }

  datatype FindError = CannotFindStepDefinition

  /** The loop of `findStepDef` over the registry, as a function of its
      prefix: the index it has settled on, or -1. An entry replaces the
      current choice only when it matches with strictly more matches, so
      the earliest of equally good entries stays. */
  function BestIndex(e: Engine, defs: seq<StepDef>, text: string): (k: int)
    ensures -1 <= k < |defs|
    ensures k == -1 <==> forall j :: 0 <= j < |defs| ==> !(e.matches(defs[j].expr, text) && e.count(defs[j].expr, text) > 0)
    ensures k >= 0 ==> e.matches(defs[k].expr, text) && e.count(defs[k].expr, text) > 0
    ensures k >= 0 ==> forall j :: 0 <= j < |defs| && e.matches(defs[j].expr, text) ==>
      e.count(defs[j].expr, text) <= e.count(defs[k].expr, text)
    ensures k >= 0 ==> forall j :: 0 <= j < k && e.matches(defs[j].expr, text) ==>
      e.count(defs[j].expr, text) < e.count(defs[k].expr, text)
    decreases |defs|
  {
    if defs == [] then -1
    else
      var init := defs[..|defs| - 1];
      var k := BestIndex(e, init, text);
      assert forall j :: 0 <= j < |init| ==> init[j] == defs[j];
      var found := if k < 0 then 0 else e.count(defs[k].expr, text);
      var last := defs[|defs| - 1];
      if e.matches(last.expr, text) && e.count(last.expr, text) > found then |defs| - 1 else k
  }

  /** What `findStepDef` returns. */
  function SelectDef(e: Engine, defs: seq<StepDef>, text: string): (r: Result<StepDef, FindError>)
    ensures r.Err? <==> forall j :: 0 <= j < |defs| ==> !(e.matches(defs[j].expr, text) && e.count(defs[j].expr, text) > 0)
    ensures r.Ok? ==> r.value in defs
  {
    var k := BestIndex(e, defs, text);
    if k < 0 then Err(CannotFindStepDefinition) else Ok(defs[k])
  }

  /** With Go's regexp semantics, the "cannot find step definition" error
      comes back exactly when no registered pattern matches the text. */
  lemma NotFoundIffNoMatch(e: Engine, defs: seq<StepDef>, text: string)
    requires Coherent(e)
    ensures SelectDef(e, defs, text).Err? <==> forall j :: 0 <= j < |defs| ==> !e.matches(defs[j].expr, text)
  {
  }

  /** Two overlapping patterns, as in the tie-break test: the second is
      chosen only when it has strictly more matches than the first. */
  lemma TwoOverlappingPatterns(e: Engine, a: StepDef, b: StepDef, text: string)
    requires e.matches(a.expr, text) && e.matches(b.expr, text)
    requires e.count(a.expr, text) > 0
    ensures SelectDef(e, [a, b], text) == Ok(if e.count(b.expr, text) > e.count(a.expr, text) then b else a)
  {
    assert [a, b][..1] == [a];
    assert BestIndex(e, [a], text) == 0;
  }
}
