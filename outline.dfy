/** What expanding one scenario-outline row produces: the substituted
    step texts and tables, and the derived patterns registered on the way
    (`runOutlineStep`, `outlineDataTableArguments`, `getRegexpForVar`). */
module Outline {
  import opened Wrappers
  import opened GoStrings
  import opened Strconv
  import opened Steps
  import opened Gherkin
  import opened Matching

  /** The token `<name>` a header cell stands for. */
  function Placeholder(name: string): (ph: string)
    ensures |ph| == |name| + 2 && ph[0] == '<'
  {
    "<" + name + ">"
  }

  /** The text after the first `n` placeholders of the header have been
      replaced, in header order, by the cells of the row at the same index. */
  function SubstituteN(s: string, header: seq<TableCell>, row: seq<TableCell>, n: nat): string
    requires n <= |header| <= |row|
  {
    if n == 0 then s
    else ReplaceAll(SubstituteN(s, header, row, n - 1), Placeholder(header[n - 1].value), row[n - 1].value)
  }

  function Substitute(s: string, header: seq<TableCell>, row: seq<TableCell>): string
    requires |header| <= |row|
  {
    SubstituteN(s, header, row, |header|)
  }

  /** Each pass replaces every occurrence of its token: the text before the
      pass, cut at the token, rejoined with the cell value. */
  lemma SubstituteStep(s: string, header: seq<TableCell>, row: seq<TableCell>, n: nat)
    requires n < |header| <= |row|
    ensures SubstituteN(s, header, row, n + 1) ==
      Join(Split(SubstituteN(s, header, row, n), Placeholder(header[n].value)), row[n].value)
  {
    ReplaceAllIsSplitJoin(SubstituteN(s, header, row, n), Placeholder(header[n].value), row[n].value);
  }

  /** A text with no `<` has no placeholder and is left unchanged. */
  lemma {:induction false} SubstituteWithoutPlaceholders(s: string, header: seq<TableCell>, row: seq<TableCell>, n: nat)
    requires n <= |header| <= |row|
    requires '<' !in s
    ensures SubstituteN(s, header, row, n) == s
  {
    if n > 0 {
      SubstituteWithoutPlaceholders(s, header, row, n - 1);
      var ph := Placeholder(header[n - 1].value);
      ReplaceAllAbsent(s, ph, row[n - 1].value);
    }
  }

  const IntFragment: string := "(\\d+)"
  const FloatFragment: string := "([+-]?([0-9]*[.])?[0-9]+)"
  /** The fallback is the literal pattern `string`, which matches only that
      word, not an arbitrary value. */
  const OtherFragment: string := "string"

  /** `getRegexpForVar`: the pattern that replaces a placeholder in a
      derived step expression, chosen by the kind of the row's value. */
  function RegexpForVar(e: Engine, v: string): (r: string)
    ensures r == IntFragment <==> IsDecimal(v) && InRange(IntValue(v), B64)
    ensures r == FloatFragment <==> !(IsDecimal(v) && InRange(IntValue(v), B64)) && e.isFloat32(v)
    ensures r == OtherFragment <==> !(IsDecimal(v) && InRange(IntValue(v), B64)) && !e.isFloat32(v)
  {
    if Atoi(v).Ok? then IntFragment
    else if e.isFloat32(v) then FloatFragment
    else OtherFragment
  }

  /** Every callback in a registry passed `validateStepFunc`. */
  predicate AllValid(defs: seq<StepDef>) {
    forall j :: 0 <= j < |defs| ==> ValidateStepFunc(defs[j].f).None?
  }

  /** The callbacks of a registry. */
  function Callbacks(defs: seq<StepDef>): set<Callback> {
    set j | 0 <= j < |defs| :: defs[j].f
  }

  /** `AddStep` on a registry: append when the callback validates. */
  function Register(defs: seq<StepDef>, d: StepDef): seq<StepDef> {
    if ValidateStepFunc(d.f).None? then defs + [d] else defs
  }

  /** The definition registered for a placeholder: the pattern of the
      definition found, with the token replaced by `getRegexpForVar`'s
      pattern for the row's value, and the same callback. */
  function DerivedDef(e: Engine, def: StepDef, ph: string, value: string): StepDef
    requires ph != []
  {
    StepDef(Regex(ReplaceAll(def.expr.source, ph, RegexpForVar(e, value))), def.f)
  }

  /** One pass of the placeholder loop on the registry: when the token
      occurs in the current text, the definition `findStepDef` picks for
      that text is registered again as a derived definition. */
  function RegisterDerived(e: Engine, defs: seq<StepDef>, current: string, ph: string, value: string): seq<StepDef>
    requires ph != []
  {
    if Index(current, ph) < 0 then defs
    else
      match SelectDef(e, defs, current)
      case Err(_) => defs
      case Ok(def) => Register(defs, DerivedDef(e, def, ph, value))
  }

  /** The registry after the first `n` placeholders of one template step,
      each looked up in the text as substituted so far. */
  function Registrations(e: Engine, defs: seq<StepDef>, text: string, header: seq<TableCell>, row: seq<TableCell>, n: nat): seq<StepDef>
    requires n <= |header| <= |row|
  {
    if n == 0 then defs
    else
      RegisterDerived(e, Registrations(e, defs, text, header, row, n - 1),
        SubstituteN(text, header, row, n - 1), Placeholder(header[n - 1].value), row[n - 1].value)
  }

  /** The registry after expanding the first `m` template steps of a row. */
  function ExpandRegistry(e: Engine, defs: seq<StepDef>, template: seq<Step>, header: seq<TableCell>, row: seq<TableCell>, m: nat): seq<StepDef>
    requires m <= |template| && |header| <= |row|
  {
    if m == 0 then defs
    else Registrations(e, ExpandRegistry(e, defs, template, header, row, m - 1), template[m - 1].text, header, row, |header|)
  }

  /** Registering a copy of a definition already present keeps the
      registry's callbacks and their validity, and adds at most one entry. */
  lemma RegisterCopy(before: seq<StepDef>, d: StepDef, k: nat)
    requires AllValid(before)
    requires k < |before| && before[k].f == d.f
    ensures var r := Register(before, d);
      before <= r && |r| <= |before| + 1 && AllValid(r) && Callbacks(r) == Callbacks(before)
  {
    var r := Register(before, d);
    assert d.f in Callbacks(before);
    if ValidateStepFunc(d.f).None? {
      assert forall j :: 0 <= j < |before| ==> r[j] == before[j];
      assert Callbacks(r) == Callbacks(before) + {d.f};
    }
  }

  /** One pass appends at most one definition, with a callback the
      registry already held. */
  lemma RegisterDerivedGrows(e: Engine, defs: seq<StepDef>, current: string, ph: string, value: string)
    requires ph != [] && AllValid(defs)
    ensures var r := RegisterDerived(e, defs, current, ph, value);
      defs <= r && |r| <= |defs| + 1 && AllValid(r) && Callbacks(r) == Callbacks(defs)
  {
    if Index(current, ph) >= 0 {
      var sel := SelectDef(e, defs, current);
      if sel.Ok? {
        var k :| 0 <= k < |defs| && defs[k] == sel.value;
        RegisterCopy(defs, DerivedDef(e, sel.value, ph, value), k);
      }
    }
  }

  /** The registry only grows at its end, by at most one definition per
      placeholder, only with callbacks it already held, and keeps every
      callback validated. */
  lemma {:induction false} RegistrationsGrow(e: Engine, defs: seq<StepDef>, text: string, header: seq<TableCell>, row: seq<TableCell>, n: nat)
    requires n <= |header| <= |row|
    requires AllValid(defs)
    ensures var r := Registrations(e, defs, text, header, row, n);
      defs <= r && |r| <= |defs| + n && AllValid(r) && Callbacks(r) == Callbacks(defs)
  {
    if n > 0 {
      RegistrationsGrow(e, defs, text, header, row, n - 1);
      RegisterDerivedGrows(e, Registrations(e, defs, text, header, row, n - 1),
        SubstituteN(text, header, row, n - 1), Placeholder(header[n - 1].value), row[n - 1].value);
    }
  }

  lemma {:induction false} ExpandRegistryGrows(e: Engine, defs: seq<StepDef>, template: seq<Step>, header: seq<TableCell>, row: seq<TableCell>, m: nat)
    requires m <= |template| && |header| <= |row|
    requires AllValid(defs)
    ensures var r := ExpandRegistry(e, defs, template, header, row, m);
      defs <= r && |r| <= |defs| + m * |header| && AllValid(r) && Callbacks(r) == Callbacks(defs)
  {
    if m > 0 {
      ExpandRegistryGrows(e, defs, template, header, row, m - 1);
      RegistrationsGrow(e, ExpandRegistry(e, defs, template, header, row, m - 1), template[m - 1].text, header, row, |header|);
      assert (m - 1) * |header| + |header| == m * |header|;
    }
  }

  /** A row of a table with placeholders replaced cell by cell. */
  predicate RowOutlined(src: TableRow, header: seq<TableCell>, row: seq<TableCell>, dst: TableRow)
    requires |header| <= |row|
  {
    dst.node == src.node && |dst.cells| == |src.cells| &&
    forall j :: 0 <= j < |src.cells| ==>
      dst.cells[j].node == src.cells[j].node && dst.cells[j].value == Substitute(src.cells[j].value, header, row)
  }

  /** `outlineDataTableArguments`: the same shape, every cell substituted. */
  predicate TableOutlined(t: DataTable, header: seq<TableCell>, row: seq<TableCell>, r: DataTable)
    requires |header| <= |row|
  {
    r.node == t.node && |r.rows| == |t.rows| &&
    forall i :: 0 <= i < |t.rows| ==> RowOutlined(t.rows[i], header, row, r.rows[i])
  }

  /** `getOutlineArguments`: tables are substituted, anything else (a doc
      string included) is kept as it is. */
  predicate ArgumentOutlined(a: Argument, header: seq<TableCell>, row: seq<TableCell>, b: Argument)
    requires |header| <= |row|
  {
    if a.Table? then b.Table? && TableOutlined(a.table, header, row, b.table) else b == a
  }

  /** The step `runOutlineStep` builds from a template step: same location
      and keyword, substituted text and argument. */
  predicate Outlined(t: Step, header: seq<TableCell>, row: seq<TableCell>, s: Step) {
    |header| <= |row| &&
    s.node == t.node && s.keyword == t.keyword &&
    s.text == Substitute(t.text, header, row) &&
    ArgumentOutlined(t.argument, header, row, s.argument)
  }

  /** The outlined forms, built: a row, a table, an argument, a step and a
      list of steps. */
  function OutlineRow(src: TableRow, header: seq<TableCell>, row: seq<TableCell>): TableRow
    requires |header| <= |row|
  {
    TableRow(src.node, seq(|src.cells|, j requires 0 <= j < |src.cells| =>
      TableCell(src.cells[j].node, Substitute(src.cells[j].value, header, row))))
  }

  function OutlineTable(t: DataTable, header: seq<TableCell>, row: seq<TableCell>): DataTable
    requires |header| <= |row|
  {
    DataTable(t.node, seq(|t.rows|, i requires 0 <= i < |t.rows| => OutlineRow(t.rows[i], header, row)))
  }

  function OutlineArgument(a: Argument, header: seq<TableCell>, row: seq<TableCell>): Argument
    requires |header| <= |row|
  {
    if a.Table? then Table(OutlineTable(a.table, header, row)) else a
  }

  function OutlineStep(t: Step, header: seq<TableCell>, row: seq<TableCell>): Step
    requires |header| <= |row|
  {
    Step(t.node, t.keyword, Substitute(t.text, header, row), OutlineArgument(t.argument, header, row))
  }

  function OutlineSteps(template: seq<Step>, header: seq<TableCell>, row: seq<TableCell>): seq<Step>
    requires |header| <= |row|
  {
    seq(|template|, k requires 0 <= k < |template| => OutlineStep(template[k], header, row))
  }

  /** The built table has the shape of the original, every cell substituted;
      and that description fixes the table. */
  lemma OutlineTableMeaning(t: DataTable, header: seq<TableCell>, row: seq<TableCell>, r: DataTable)
    requires |header| <= |row|
    ensures TableOutlined(t, header, row, OutlineTable(t, header, row))
    ensures TableOutlined(t, header, row, r) ==> r == OutlineTable(t, header, row)
  {
    var o := OutlineTable(t, header, row);
    if TableOutlined(t, header, row, r) {
      forall i | 0 <= i < |t.rows| ensures r.rows[i] == o.rows[i] {
        assert RowOutlined(t.rows[i], header, row, r.rows[i]);
        assert r.rows[i].cells == o.rows[i].cells;
      }
      assert r.rows == o.rows;
    }
  }

  /** One step per template step, in template order, each keeping the
      template's location and keyword, with its text and table substituted;
      and that description fixes the steps. */
  lemma {:induction false} OutlineStepsMeaning(template: seq<Step>, header: seq<TableCell>, row: seq<TableCell>, out: seq<Step>)
    requires |header| <= |row|
    ensures var o := OutlineSteps(template, header, row);
      |o| == |template| && forall k :: 0 <= k < |template| ==> Outlined(template[k], header, row, o[k])
    ensures |out| == |template| && (forall k :: 0 <= k < |template| ==> Outlined(template[k], header, row, out[k])) ==>
      out == OutlineSteps(template, header, row)
  {
    var o := OutlineSteps(template, header, row);
    forall k | 0 <= k < |template| ensures Outlined(template[k], header, row, o[k]) {
      if template[k].argument.Table? {
        OutlineTableMeaning(template[k].argument.table, header, row, template[k].argument.table);
      }
    }
    if |out| == |template| && (forall k :: 0 <= k < |template| ==> Outlined(template[k], header, row, out[k])) {
      forall k | 0 <= k < |template| ensures out[k] == o[k] {
        assert Outlined(template[k], header, row, out[k]);
        if template[k].argument.Table? {
          OutlineTableMeaning(template[k].argument.table, header, row, out[k].argument.table);
        }
      }
    }
  }

  /** One example row together with its block's header. */
  datatype ExampleRow = ExampleRow(header: seq<TableCell>, row: seq<TableCell>)

  /** The rows of one block; a block with no rows is skipped. */
  function BlockRows(ex: Examples): seq<ExampleRow> {
    if |ex.body| == 0 then []
    else seq(|ex.body|, i requires 0 <= i < |ex.body| => ExampleRow(ex.header.cells, ex.body[i].cells))
  }

  /** All rows of an outline, block after block, in declaration order. */
  function ExampleRows(exs: seq<Examples>): seq<ExampleRow> {
    if exs == [] then [] else ExampleRows(exs[..|exs| - 1]) + BlockRows(exs[|exs| - 1])
  }

  /** The rows of the first `b + 1` blocks extend those of the first `b`. */
  lemma ExampleRowsStep(exs: seq<Examples>, b: nat)
    requires b < |exs|
    ensures ExampleRows(exs[..b + 1]) == ExampleRows(exs[..b]) + BlockRows(exs[b])
  {
    assert exs[..b + 1][..b] == exs[..b];
  }

  function TotalRows(exs: seq<Examples>): nat {
    if exs == [] then 0 else TotalRows(exs[..|exs| - 1]) + |exs[|exs| - 1].body|
  }

  lemma {:induction false} ExampleRowsCount(exs: seq<Examples>)
    ensures |ExampleRows(exs)| == TotalRows(exs)
  {
    if exs != [] {
      ExampleRowsCount(exs[..|exs| - 1]);
    }
  }

  /** Every row of every block has a cell for each header cell (the parser
      rejects tables with inconsistent cell counts). */
  predicate RowsFit(exs: seq<Examples>) {
    forall b, i :: 0 <= b < |exs| && 0 <= i < |exs[b].body| ==> |exs[b].header.cells| <= |exs[b].body[i].cells|
  }

  /** The runs produced for an outline: one per row, each the template
      steps outlined with that row. */
  predicate RunsFollowRows(template: seq<Step>, rows: seq<ExampleRow>, runs: seq<seq<Step>>) {
    |runs| == |rows| &&
    forall r :: 0 <= r < |runs| ==>
      |rows[r].header| <= |rows[r].row| && runs[r] == OutlineSteps(template, rows[r].header, rows[r].row)
  }

  /** Runs for two lists of rows, one after the other, follow the
      concatenated list. */
  lemma RunsFollowAppend(template: seq<Step>, rows1: seq<ExampleRow>, runs1: seq<seq<Step>>, rows2: seq<ExampleRow>, runs2: seq<seq<Step>>)
    requires RunsFollowRows(template, rows1, runs1) && RunsFollowRows(template, rows2, runs2)
    ensures RunsFollowRows(template, rows1 + rows2, runs1 + runs2)
  {
    var rows, runs := rows1 + rows2, runs1 + runs2;
    forall r | |runs1| <= r < |runs|
      ensures |rows[r].header| <= |rows[r].row| && runs[r] == OutlineSteps(template, rows[r].header, rows[r].row)
    {
      assert runs[r] == runs2[r - |runs1|] && rows[r] == rows2[r - |runs1|];
    }
  }

  /** N template steps and M rows give M runs of N steps each. */
  lemma RunsCount(template: seq<Step>, exs: seq<Examples>, runs: seq<seq<Step>>)
    requires RunsFollowRows(template, ExampleRows(exs), runs)
    ensures |runs| == TotalRows(exs)
    ensures forall r :: 0 <= r < |runs| ==> |runs[r]| == |template|
  {
    ExampleRowsCount(exs);
  }

  /** Every row has a cell for each header cell. */
  predicate RowsFitHeaders(rows: seq<ExampleRow>) {
    forall r :: 0 <= r < |rows| ==> |rows[r].header| <= |rows[r].row|
  }

  /** The registry after outlining the template for each row in turn: the
      definitions derived for one row stay registered for the next. */
  function OutlineRegistry(e: Engine, defs: seq<StepDef>, template: seq<Step>, rows: seq<ExampleRow>): seq<StepDef>
    requires RowsFitHeaders(rows)
  {
    if rows == [] then defs
    else
      var last := rows[|rows| - 1];
      ExpandRegistry(e, OutlineRegistry(e, defs, template, rows[..|rows| - 1]), template, last.header, last.row, |template|)
  }

  /** Outlining two lists of rows one after the other is outlining their
      concatenation. */
  lemma {:induction false} OutlineRegistryAppend(e: Engine, defs: seq<StepDef>, template: seq<Step>, rows1: seq<ExampleRow>, rows2: seq<ExampleRow>)
    requires RowsFitHeaders(rows1) && RowsFitHeaders(rows2)
    ensures RowsFitHeaders(rows1 + rows2)
    ensures OutlineRegistry(e, defs, template, rows1 + rows2)
         == OutlineRegistry(e, OutlineRegistry(e, defs, template, rows1), template, rows2)
  {
    var rows := rows1 + rows2;
    assert forall r :: 0 <= r < |rows| ==> rows[r] == if r < |rows1| then rows1[r] else rows2[r - |rows1|];
    if rows2 == [] {
      assert rows == rows1;
    } else {
      var init := rows2[..|rows2| - 1];
      assert rows[..|rows| - 1] == rows1 + init;
      assert rows[|rows| - 1] == rows2[|rows2| - 1];
      OutlineRegistryAppend(e, defs, template, rows1, init);
    }
  }

  /** Over all rows the registry still only grows at its end, by at most one
      definition per template step and placeholder of each row, with no new
      callback and every callback validated. */
  lemma {:induction false} OutlineRegistryGrows(e: Engine, defs: seq<StepDef>, template: seq<Step>, rows: seq<ExampleRow>)
    requires RowsFitHeaders(rows) && AllValid(defs)
    ensures var r := OutlineRegistry(e, defs, template, rows);
      defs <= r && AllValid(r) && Callbacks(r) == Callbacks(defs)
  {
    if rows != [] {
      var last := rows[|rows| - 1];
      OutlineRegistryGrows(e, defs, template, rows[..|rows| - 1]);
      ExpandRegistryGrows(e, OutlineRegistry(e, defs, template, rows[..|rows| - 1]), template, last.header, last.row, |template|);
    }
  }
}
