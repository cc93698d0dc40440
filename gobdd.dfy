/** gobdd.go: the suite's step registry, step lookup, tag filter and the
    expansion of scenario outlines into concrete steps. */
module Gobdd {
  import opened Wrappers
  import opened Values
  import opened GoStrings
  import opened Steps
  import opened Gherkin
  import opened Matching
  import opened Outline

  /** The options the core reads. Hooks are left out of the model. */
  datatype SuiteOptions = SuiteOptions(
    featuresPath: string, ignoreTags: seq<string>, tags: seq<string>, runInParallel: bool)

  /** `contains`: a linear scan for `x`. */
  method Contains(a: seq<string>, x: string) returns (r: bool)
    ensures r <==> x in a
  {
    var i := 0;
    while i < |a|
      invariant 0 <= i <= |a|
      invariant x !in a[..i]
    {
      if x == a[i] {
        return true;
      }
      i := i + 1;
    }
    assert a[..i] == a;
    return false;
  }

  predicate AnyTagIn(tags: seq<Tag>, names: seq<string>) {
    exists t :: 0 <= t < |tags| && tags[t].name in names
  }

  /** The decision of `skipScenario`: an ignored tag always skips; an empty
      include list runs everything else; otherwise some tag must be
      included. */
  predicate Skipped(options: SuiteOptions, tags: seq<Tag>) {
    AnyTagIn(tags, options.ignoreTags) || (|options.tags| > 0 && !AnyTagIn(tags, options.tags))
  }

  /** Step arity check of `runStep`: the callback receives the context and
      one value per capture group. */
  datatype RunError = ArityMismatch(accepts: nat, received: nat)

  function CheckArity(f: Callback, params: seq<seq<byte>>): (r: Option<RunError>)
    requires f.Func?
    ensures r.None? <==> |f.ins| == |params| + 1
    ensures r.Some? ==> r.value.accepts == |f.ins| && r.value.received == |params| + 1
  {
    if |params| + 1 != |f.ins| then Some(ArityMismatch(|f.ins|, |params| + 1)) else None
  }

  /** Only callbacks of the accepted shape reach the arity check, and those
      take the context first: a pattern with no capture group needs a
      callback of exactly one parameter. */
  lemma ValidatedArity(f: Callback, params: seq<seq<byte>>)
    requires ValidateStepFunc(f).None?
    ensures f.Func? && |f.ins| >= 1
    ensures CheckArity(f, params).None? ==> |params| == |f.ins| - 1
  {
  }

  class Suite {
    const engine: Engine
    const options: SuiteOptions
    var steps: seq<StepDef>

    /** Every registered callback passed `validateStepFunc`. */
    ghost predicate Valid()
      reads this
    {
      AllValid(steps)
    }

    /** `NewSuite`: the given options and no steps. */
    constructor (engine: Engine, options: SuiteOptions)
      ensures this.engine == engine && this.options == options
      ensures steps == [] && Valid()
    {
      this.engine := engine;
      this.options := options;
      steps := [];
    }

    /** `AddStep`: validate, then append one definition at the end. */
    method AddStep(expr: string, f: Callback) returns (err: Option<ShapeError>)
      requires Valid()
      modifies this`steps
      ensures Valid()
      ensures err == ValidateStepFunc(f)
      ensures err.None? ==> steps == old(steps) + [StepDef(Regex(expr), f)]
      ensures err.Some? ==> steps == old(steps)
    {
      err := ValidateStepFunc(f);
      if err.Some? {
        return;
      }
      steps := steps + [StepDef(Regex(expr), f)];
    }

    /** `AddRegexStep`: the same with an already compiled pattern. */
    method AddRegexStep(expr: Regex, f: Callback) returns (err: Option<ShapeError>)
      requires Valid()
      modifies this`steps
      ensures Valid()
      ensures err == ValidateStepFunc(f)
      ensures err.None? ==> steps == old(steps) + [StepDef(expr, f)]
      ensures err.Some? ==> steps == old(steps)
    {
      err := ValidateStepFunc(f);
      if err.Some? {
        return;
      }
      steps := steps + [StepDef(expr, f)];
    }

    /** `findStepDef`: the entry with strictly the most matches, the
      earliest on a tie, or the error when no entry matches. */
    method FindStepDef(text: string) returns (r: Result<StepDef, FindError>)
      ensures r == SelectDef(engine, steps, text)
    {
      var found: nat := 0;
      var sd: Option<StepDef> := None;
      ghost var best: int := -1;
      var i := 0;
      while i < |steps|
        invariant 0 <= i <= |steps|
        invariant best == BestIndex(engine, steps[..i], text)
        invariant best < 0 ==> sd == None && found == 0
        invariant best >= 0 ==> best < i && sd == Some(steps[best]) && found == engine.count(steps[best].expr, text)
      {
        assert steps[..i + 1][..i] == steps[..i];
        var step := steps[i];
        if engine.matches(step.expr, text) {
          var l := engine.count(step.expr, text);
          if l > found {
            found := l;
            sd := Some(step);
            best := i;
          }
        }
        i := i + 1;
      }
      assert steps[..i] == steps;
      if sd == None {
        return Err(CannotFindStepDefinition);
      }
      return Ok(sd.value);
    }

    /** `skipScenario`. */
    method SkipScenario(scenarioTags: seq<Tag>) returns (skip: bool)
      ensures skip <==> Skipped(options, scenarioTags)
      ensures AnyTagIn(scenarioTags, options.ignoreTags) ==> skip
      ensures !AnyTagIn(scenarioTags, options.ignoreTags) && |options.tags| == 0 ==> !skip
      ensures !AnyTagIn(scenarioTags, options.ignoreTags) && |options.tags| > 0 ==>
        (skip <==> !AnyTagIn(scenarioTags, options.tags))
    {
      var i := 0;
      while i < |scenarioTags|
        invariant 0 <= i <= |scenarioTags|
        invariant forall t :: 0 <= t < i ==> scenarioTags[t].name !in options.ignoreTags
      {
        var c := Contains(options.ignoreTags, scenarioTags[i].name);
        if c {
          return true;
        }
        i := i + 1;
      }
      if |options.tags| == 0 {
        return false;
      }
      i := 0;
      while i < |scenarioTags|
        invariant 0 <= i <= |scenarioTags|
        invariant forall t :: 0 <= t < i ==> scenarioTags[t].name !in options.tags
      {
        var c := Contains(options.tags, scenarioTags[i].name);
        if c {
          return false;
        }
        i := i + 1;
      }
      return true;
    }

    /** `runOutlineStep`: one concrete step per template step, and on the
      way a derived definition registered for each placeholder found. */
    method RunOutlineStep(template: seq<Step>, placeholders: seq<TableCell>, group: TableRow) returns (out: seq<Step>)
      requires Valid() && |placeholders| <= |group.cells|
      modifies this`steps
      ensures Valid()
      ensures steps == ExpandRegistry(engine, old(steps), template, placeholders, group.cells, |template|)
      ensures old(steps) <= steps
      ensures out == OutlineSteps(template, placeholders, group.cells)
    {
      out := [];
      for m := 0 to |template|
        invariant Valid()
        invariant steps == ExpandRegistry(engine, old(steps), template, placeholders, group.cells, m)
        invariant out == OutlineSteps(template[..m], placeholders, group.cells)
      {
        var outlineStep := template[m];
        ghost var before := steps;
        var text := SubstitutePlaceholders(outlineStep.text, placeholders, group);
        assert steps == ExpandRegistry(engine, old(steps), template, placeholders, group.cells, m + 1) by {
          assert before == ExpandRegistry(engine, old(steps), template, placeholders, group.cells, m);
        }
        var arg := GetOutlineArguments(outlineStep, placeholders, group);
        out := out + [Step(outlineStep.node, outlineStep.keyword, text, arg)];
        assert out == OutlineSteps(template[..m + 1], placeholders, group.cells);
      }
      assert template[..|template|] == template;
      ExpandRegistryGrows(engine, old(steps), template, placeholders, group.cells, |template|);
    }

    /** The placeholder loop of `runOutlineStep` for one template step: each
      header found in the text so far is replaced by its cell, and the
      definition matching the text before that replacement is registered
      again with the placeholder turned into `getRegexpForVar`'s pattern. */
    method SubstitutePlaceholders(template: string, placeholders: seq<TableCell>, group: TableRow) returns (text: string)
      requires Valid() && |placeholders| <= |group.cells|
      modifies this`steps
      ensures Valid()
      ensures text == Substitute(template, placeholders, group.cells)
      ensures steps == Registrations(engine, old(steps), template, placeholders, group.cells, |placeholders|)
    {
      text := template;
      for i := 0 to |placeholders|
        invariant Valid()
        invariant text == SubstituteN(template, placeholders, group.cells, i)
        invariant steps == Registrations(engine, old(steps), template, placeholders, group.cells, i)
      {
        var ph := Placeholder(placeholders[i].value);
        var index := Index(text, ph);
        var originalText := text;
        if index == -1 {
          ReplaceAllAbsent(text, ph, group.cells[i].value);
          continue;
        }
        text := ReplaceAll(text, ph, group.cells[i].value);
        var t := RegexpForVar(engine, group.cells[i].value);
        var def := FindStepDef(originalText);
        if def.Ok? {
          var expr := ReplaceAll(def.value.expr.source, ph, t);
          var _ := AddStep(expr, def.value.f);
        }
      }
    }

    /** `getOutlineArguments`: tables are substituted, anything else is
      passed on unchanged. */
    method GetOutlineArguments(outlineStep: Step, placeholders: seq<TableCell>, group: TableRow) returns (arg: Argument)
      requires |placeholders| <= |group.cells|
      ensures arg == OutlineArgument(outlineStep.argument, placeholders, group.cells)
    {
      arg := outlineStep.argument;
      if outlineStep.argument.Table? {
        var tbl := OutlineDataTableArguments(outlineStep.argument.table, placeholders, group);
        arg := Table(tbl);
      }
    }

    /** `outlineDataTableArguments`: fresh row and cell arrays of the
      table's sizes, each cell with every placeholder replaced. */
    method OutlineDataTableArguments(t: DataTable, placeholders: seq<TableCell>, group: TableRow) returns (tbl: DataTable)
      requires |placeholders| <= |group.cells|
      ensures tbl == OutlineTable(t, placeholders, group.cells)
    {
      var rows := new TableRow[|t.rows|];
      for i := 0 to |t.rows|
        invariant forall r :: 0 <= r < i ==> rows[r] == OutlineRow(t.rows[r], placeholders, group.cells)
      {
        var row := t.rows[i];
        var cells := new TableCell[|row.cells|];
        for j := 0 to |row.cells|
          modifies cells
          invariant forall c :: 0 <= c < j ==>
            cells[c].node == row.cells[c].node && cells[c].value == Substitute(row.cells[c].value, placeholders, group.cells)
        {
          var cell := row.cells[j];
          var trans := cell.value;
          for p := 0 to |placeholders|
            invariant trans == SubstituteN(cell.value, placeholders, group.cells, p)
          {
            trans := ReplaceAll(trans, Placeholder(placeholders[p].value), group.cells[p].value);
          }
          cells[j] := TableCell(cell.node, trans);
        }
        rows[i] := TableRow(row.node, cells[..]);
        assert rows[i] == OutlineRow(row, placeholders, group.cells);
      }
      tbl := DataTable(t.node, rows[..]);
      assert tbl.rows == OutlineTable(t, placeholders, group.cells).rows;
    }

    /** The loop of `runScenarioOutline`: blocks without rows are skipped,
      every other row yields the outlined steps of the template. The
      definitions derived for one row stay registered for the rows and
      scenarios after it. Running the steps is not part of this model. */
    method RunScenarioOutline(outline: ScenarioOutline) returns (runs: seq<seq<Step>>)
      requires Valid() && RowsFit(outline.examples)
      modifies this`steps
      ensures Valid() && old(steps) <= steps
      ensures RunsFollowRows(outline.steps, ExampleRows(outline.examples), runs)
      ensures RowsFitHeaders(ExampleRows(outline.examples))
      ensures steps == OutlineRegistry(engine, old(steps), outline.steps, ExampleRows(outline.examples))
      ensures Callbacks(steps) == Callbacks(old(steps))
    {
      runs := [];
      var exs := outline.examples;
      for b := 0 to |exs|
        invariant Valid()
        invariant RunsFollowRows(outline.steps, ExampleRows(exs[..b]), runs)
        invariant RowsFitHeaders(ExampleRows(exs[..b]))
        invariant steps == OutlineRegistry(engine, old(steps), outline.steps, ExampleRows(exs[..b]))
      {
        ExampleRowsStep(exs, b);
        var ex := exs[b];
        ghost var done := ExampleRows(exs[..b]);
        if |ex.body| == 0 {
          assert ExampleRows(exs[..b + 1]) == done + [] == done;
          continue;
        }
        assert forall i :: 0 <= i < |ex.body| ==> |ex.header.cells| <= |ex.body[i].cells|;
        var blockRuns := RunExamples(outline.steps, ex);
        RunsFollowAppend(outline.steps, done, runs, BlockRows(ex), blockRuns);
        OutlineRegistryAppend(engine, old(steps), outline.steps, done, BlockRows(ex));
        runs := runs + blockRuns;
      }
      assert exs[..|exs|] == exs;
      OutlineRegistryGrows(engine, old(steps), outline.steps, ExampleRows(exs));
    }

    /** The rows of one non-empty block, each outlined in turn, the
      registry carried from row to row. */
    method RunExamples(template: seq<Step>, ex: Examples) returns (runs: seq<seq<Step>>)
      requires Valid() && |ex.body| > 0
      requires forall i :: 0 <= i < |ex.body| ==> |ex.header.cells| <= |ex.body[i].cells|
      modifies this`steps
      ensures Valid()
      ensures RunsFollowRows(template, BlockRows(ex), runs)
      ensures RowsFitHeaders(BlockRows(ex))
      ensures steps == OutlineRegistry(engine, old(steps), template, BlockRows(ex))
    {
      runs := [];
      var placeholders := ex.header.cells;
      var groups := ex.body;
      assert RowsFitHeaders(BlockRows(ex));
      for g := 0 to |groups|
        invariant Valid()
        invariant RunsFollowRows(template, BlockRows(ex)[..g], runs)
        invariant steps == OutlineRegistry(engine, old(steps), template, BlockRows(ex)[..g])
      {
        var row := ExampleRow(placeholders, groups[g].cells);
        assert BlockRows(ex)[..g + 1] == BlockRows(ex)[..g] + [row];
        assert (BlockRows(ex)[..g] + [row])[..g] == BlockRows(ex)[..g];
        var steps1 := RunOutlineStep(template, placeholders, groups[g]);
        RunsFollowAppend(template, BlockRows(ex)[..g], runs, [row], [steps1]);
        runs := runs + [steps1];
      }
      assert BlockRows(ex)[..|groups|] == BlockRows(ex);
    }
  }
}
