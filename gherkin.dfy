/** The parts of the parsed Gherkin document the core reads. The parser
    itself is not part of this model. */
module Gherkin {
  datatype Location = Location(line: nat, column: nat)

  datatype Tag = Tag(node: Location, name: string)

  datatype TableCell = TableCell(node: Location, value: string)

  datatype TableRow = TableRow(node: Location, cells: seq<TableCell>)

  datatype DataTable = DataTable(node: Location, rows: seq<TableRow>)

  /** What may be attached to a step. */
  datatype Argument =
    | NoArgument
    | DocString(node: Location, content: string)
    | Table(table: DataTable)

  datatype Step = Step(node: Location, keyword: string, text: string, argument: Argument)

  /** One `Examples:` block of an outline: a header row naming the
      placeholders and the rows of values. */
  datatype Examples = Examples(node: Location, header: TableRow, body: seq<TableRow>)

  datatype ScenarioOutline = ScenarioOutline(
    node: Location, keyword: string, name: string, tags: seq<Tag>,
    steps: seq<Step>, examples: seq<Examples>)
}
