# gobdd core, modelled in Dafny

gobdd is a behaviour-driven-development runner for Go tests. Step
definitions pair a regular expression with a callback. The suite keeps them
in an append-only registry. A Gherkin step runs the callback whose pattern
matches its text with the most matches. Scenario outlines are expanded row
by row: each `<placeholder>` is replaced by the row's value, and on the way
a derived pattern is registered for the step. That derived definition stays
in the registry for every later lookup. The runner hands steps Go's standard
`context.Context`. Beside it the library offers two helper stores, both
named `Context`: one in context.go and one in package `context`. Each holds
a key/value map and a list of raw byte parameters. Their typed getters and
parameter accessors panic on a missing key, a wrong type, a bad index or
text that does not parse. In the runner code modelled here, nothing fills
their parameter lists, so they are modelled as a library on their own, not
as state the runner passes between steps.

This project models that core:

- the registry: `AddStep`, `AddRegexStep`, `findStepDef`;
- the tag filter: `skipScenario`, `contains`;
- the signature check `validateStepFunc`;
- the outline expander: `runOutlineStep`, `getOutlineArguments`,
  `outlineDataTableArguments`, `getRegexpForVar`, and the loop of
  `runScenarioOutline`;
- the arity check of `runStep`;
- both context types: `Context` in context.go, and package `context` with
  context/context.go, context/get.go and context/getparam.go.

Files and modules:

- `wrappers.dfy` (`Wrappers`): `Option` and `Result`.
- `strconv.dfy` (`Strconv`): base-10 `ParseInt`, `Atoi`, `ParseBool` and
  their formatting partners, as Go's `strconv` defines them.
- `gostrings.dfy` (`GoStrings`): `strings.Index` and
  `strings.Replace(s, old, new, -1)`, related to `Split`/`Join`.
- `values.dfy` (`Values`): dynamically typed values, type assertion, the
  panics as error values, and bytes.
- `store.dfy` (`Store`): the map lookups shared by both context types.
- `params.dfy` (`Params`): the parameter accessors shared by both context types.
- `context.dfy` (`Context`): package `context`, a class over a value map and
  a parameter list.
- `gobdd_context.dfy` (`GobddContext`): the `Context` of context.go.
- `steps.dfy` (`Steps`): `validateStepFunc` on a signature descriptor.
- `gherkin.dfy` (`Gherkin`): the parsed-document records the core reads.
- `matching.dfy` (`Matching`): registry entries and the selection rule of
  `findStepDef`.
- `outline.dfy` (`Outline`): what outline expansion produces, as functions.
- `gobdd.dfy` (`Gobdd`): the `Suite` class and the tag and arity checks.

Other external code:

- The regular-expression engine is an `Engine` value holding three
  functions: `MatchString`, `len(FindAll(text, -1))`, and whether
  `ParseFloat(s, 32)` succeeds. Every property is proved for every engine.
  Where a property needs Go's regexp behaviour (a match exists exactly when
  `FindAll` finds one), that is the `Coherent` hypothesis.
- Reflection is replaced by a descriptor of the callback: whether it is a
  function, and which of its parameter and result types implement
  `context.Context` and `error`.
- A panic is an `Err` result carrying a `Panic` value.

Behaviour worth knowing:

- `getRegexpForVar` falls back to the literal pattern `string`, which
  matches only that word, not any value.
- The definition looked up while expanding an outline is found with the text
  as substituted before the current placeholder (`originalText`), not with
  the template text.
- `ParseBool` accepts an exact list of twelve spellings, not any
  capitalisation of true/false.
- Placeholders inside doc strings are not substituted. Only data tables are.

## Model

| member | source | states |
|---|---|---|
| Strconv.ParseInt | context/getparam.go:67-72 | `strconv.ParseInt(s, 10, bits)` succeeds exactly on optionally signed decimal text whose value lies in the signed range of `bits`, and returns that value; decimal text out of range gives the range error; non-decimal text gives the range error when the digits before the first non-digit already pass 2^bits - 1, the syntax error otherwise |
| Strconv.ParseUint | context/getparam.go:67-72 | the digit loop inside `ParseInt(s, 10, bits)`: left to right, a syntax error at the first non-digit or on empty text, a range error as soon as the value passes 2^bits - 1, whichever comes first; its meaning is proved by `Strconv.ParseUintMeaning` |
| Strconv.ParseUintMeaning | context/getparam.go:67-72 | the unsigned parse at a bit size succeeds exactly on a non-empty digit string whose value is at most 2^bits - 1 and returns that value; a digit string too large gives the range error; text with a non-digit gives the range error when its leading digits already pass 2^bits - 1 and the syntax error otherwise |
| Strconv.RangeBeforeSyntax | context/getparam.go:77-90 | at 8 bits, "256x" gives the range error and "25x" the syntax error: the digit loop reports overflow before a later non-digit |
| Strconv.Atoi | context.go:74-79 | `Atoi` succeeds exactly on decimal text within int64 and returns its value |
| Strconv.ParseBool | context/getparam.go:14-17 | accepts exactly 1, t, T, TRUE, true, True (true) and 0, f, F, FALSE, false, False (false); everything else is a syntax error |
| Strconv.ParseBoolRoundTrip | context/getparam.go:9-20 | the text `FormatBool` gives for a boolean parses back to it |
| Strconv.FormatParseRoundTrip | context/getparam.go:122-135 | the base-10 rendering of any integer in the range of a bit size parses back, at that size, to the same integer |
| GoStrings.Index | gobdd.go:274-278 | the result is the first position where the token occurs, and it is -1 exactly when the token does not occur |
| GoStrings.ReplaceAll | gobdd.go:280 | `strings.Replace(s, old, new, -1)`, also used at gobdd.go:288 and 338: from the left, every non-overlapping occurrence is replaced and the text between occurrences is kept; `GoStrings.ReplaceAllIsSplitJoin` proves it equal to cutting at the token and joining with the value |
| GoStrings.SplitJoin | gobdd.go:280 | cutting a text at every occurrence of a separator and rejoining with it gives the text back |
| GoStrings.SplitPiecesFree | gobdd.go:280 | no piece between occurrences contains the separator, so replacement leaves no original occurrence behind |
| GoStrings.ReplaceAllIsSplitJoin | gobdd.go:280 | replacing every occurrence is cutting at the token and joining with the value |
| GoStrings.ReplaceAllSelf | gobdd.go:280 | replacing a token by itself changes nothing |
| GoStrings.ReplaceAllAbsent | gobdd.go:274-278 | a text without the token is unchanged by replacement, which is why skipping absent headers loses nothing |
| Values.BytesToString | context/getparam.go:22-28 | `string(b)` keeps the length and every byte |
| Values.StringToBytes | context/getparam.go:22-28 | converting a one-byte-per-character text to bytes and back gives the text |
| Store.Lookup | context/context.go:149-158 | a present key returns its value whatever the defaults; an absent key returns the single default, and with zero or several defaults panics |
| Store.TypedLookup | context/get.go:6-23 | more than one default panics even for a present key; an absent key returns the one default or panics; a present value must have the requested type, else a type panic |
| Store.TypedLookupRefinesLookup | context/get.go:6-175 | whenever a typed getter succeeds, the untyped `Get` returns the same value |
| Store.LookupAfterStore | context/context.go:145-158 | after storing under a key, `Get` returns the new value and every other key's lookups are unchanged |
| Params.ParamAt | context/context.go:24-30 | `GetParam(i)` returns `params[i]` exactly when the index is valid; `i >= len` is the "does not exist" panic; a negative index panics in the slice access |
| Params.StringParam | context/getparam.go:22-28 | `GetStringParam` returns the captured bytes verbatim, with the same index errors |
| Params.IntParam | context/getparam.go:62-75 | an integer accessor succeeds exactly for a valid index whose text is decimal and fits the bit size, returns its value, and otherwise panics with the index or strconv error (range error for decimal text out of range; for non-decimal text the error kind `ParseInt` gives at that bit size) |
| Params.BoolParam | context/getparam.go:9-20 | `GetBoolParam` succeeds exactly on `ParseBool`'s spellings, true exactly on the true ones, and panics otherwise |
| Params.IntParamRoundTrip | context/getparam.go:122-135 | an in-range integer captured as its decimal text is read back unchanged by the accessor of that width |
| Params.BoolParamRoundTrip | context/getparam.go:9-20 | a boolean captured as its `FormatBool` text is read back unchanged |
| Context.Context.New | context/context.go:17-22 | `New` has no values and no parameters |
| Context.Context.Set | context/context.go:145-147 | the key is overwritten in place; `Get` returns the new value for any defaults and every other key's result is as before |
| Context.Context.Get | context/context.go:149-158 | present key gives its value; absent key gives the single default, otherwise panics |
| Context.Context.GetTyped | context/get.go:6-175 | the nine generated getters: several defaults panic, success exactly when the stored value has the type or the key is absent with one default, result the stored value or that default |
| Context.Context.SetParams | context/context.go:160-162 | the whole list is replaced; `GetParam` then reads every new entry and reports every index past its end as missing |
| Context.Context.GetParam | context/context.go:24-30 | valid index returns the entry, `i >= len` the "does not exist" panic |
| Context.Context.GetStringParam | context/getparam.go:22-28 | valid index returns the bytes as text, `i >= len` panics |
| Context.Context.GetBoolParam | context/getparam.go:9-20 | succeeds exactly on `ParseBool`'s spellings at a valid index |
| Context.Context.GetIntParam | context/getparam.go:62-75 | parses at 32 bits: succeeds exactly on decimal text within int32, returns its value, panics on a missing index |
| Context.Context.GetInt8Param | context/getparam.go:77-90 | succeeds exactly on decimal text within int8 and returns its value |
| Context.Context.GetInt16Param | context/getparam.go:92-105 | succeeds exactly on decimal text within int16 and returns its value |
| Context.Context.GetInt32Param | context/getparam.go:107-120 | succeeds exactly on decimal text within int32 and returns its value |
| Context.Context.GetInt64Param | context/getparam.go:122-135 | succeeds exactly on decimal text within int64 and returns its value |
| Context.Context.SetGetScenario | context/get_test.go:6-43 | a value set under a key is read back, a default is used only for an absent key, an absent key without a default panics, two defaults or a wrong type panic, and an int64 captured as its text is read back (as in context/getparam_test.go:138-150) |
| GobddContext.Context.constructor | context.go:16-21 | `newContext` has an empty value map and an empty parameter list |
| GobddContext.Context.Set | context.go:144-146 | the key is overwritten in place; every other key's `Get` is as before |
| GobddContext.Context.Get | context.go:148-154 | succeeds exactly for a present key and returns its value; an absent key panics |
| GobddContext.Context.GetTyped | context.go:156-258 | the typed getters succeed exactly when the key is present with a value of the requested type; otherwise they panic with a missing-key or a type error |
| GobddContext.Context.SetParams | context.go:260-262 | the parameter list is replaced |
| GobddContext.Context.GetParam | context.go:23-29 | valid index returns the entry, `i >= len` panics |
| GobddContext.Context.GetStringParam | context.go:31-37 | valid index returns the bytes as text, `i >= len` panics |
| GobddContext.Context.GetIntParam | context.go:69-82 | `Atoi`: succeeds exactly on decimal text within int64 and returns its value |
| GobddContext.Context.GetInt8Param | context.go:84-97 | succeeds exactly on decimal text within int8 |
| GobddContext.Context.GetInt16Param | context.go:99-112 | succeeds exactly on decimal text within int16 |
| GobddContext.Context.GetInt32Param | context.go:114-127 | succeeds exactly on decimal text within int32 |
| GobddContext.Context.GetInt64Param | context.go:129-142 | as written: parses at 32 bits, so it succeeds exactly on decimal text within int32 |
| GobddContext.Context.GetInt64ParamIntended | context.go:129-142 | corrected: succeeds exactly on decimal text within int64 |
| GobddContext.GetInt64ParamRejectsWideValues | context.go:129-142 | every int64 outside int32, captured as its text, is rejected with a range error as written and read back by the corrected accessor |
| GobddContext.GetInt64ParamIntendedRoundTrip | context.go:129-142 | the corrected accessor reads back every int64 |
| Steps.ValidateStepFunc | steps.go:9-40 | nil exactly for `func(C, ...) (C', E)` with `C` convertible to and `C'` implementing `context.Context` and `E` implementing `error`; otherwise the error returned is a rule the function breaks and no rule checked before it is broken |
| Steps.FirstFailingRule | steps.go:9-40 | conversely, a rule the function breaks with no earlier rule broken is exactly the error returned |
| Steps.ResultsCheckedFirst | steps.go:15-28 | with unacceptable results the parameters do not affect the error |
| Steps.OnlyFirstParameterChecked | steps.go:30-38 | parameters after the first never affect the result |
| Steps.ValidateStepFuncExamples | steps_test.go:8-30 | the five rejected shapes of the tests get their errors and `func(context.Context) (context.Context, error)` is accepted |
| Steps.MessagesCollide | steps.go:26-37 | as written, a bad first parameter and a bad second result report the same message |
| Steps.Message | steps.go:11-38 | the error text each rule of `validateStepFunc` reports, as written; `Steps.MessagesCollide` shows that two of them coincide |
| Steps.MessageIntended | steps.go:34-38 | the corrected texts: the first-parameter rule names the parameter and `context.Context`, and every other text is unchanged; `Steps.MessageIntendedDistinct` proves that all of them differ |
| Steps.MessageIntendedDistinct | steps.go:11-38 | with the corrected message, different rules report different messages |
| Matching.BestIndex | gobdd.go:444-457 | the scan settles on an entry that matches with a positive count, no entry has more matches, every earlier matching entry has strictly fewer (ties go to the earliest), and -1 exactly when nothing matches |
| Matching.SelectDef | gobdd.go:444-464 | the error exactly when no entry matches with a positive count; otherwise a registered definition |
| Matching.NotFoundIffNoMatch | gobdd.go:459-463 | with Go's regexp, "cannot find step definition" exactly when no registered pattern matches the text |
| Matching.TwoOverlappingPatterns | gobdd.go:453-456 | of two matching patterns the later wins only with strictly more matches |
| Outline.Placeholder | gobdd.go:273 | the token is the header value between `<` and `>` |
| Outline.SubstituteStep | gobdd.go:280 | each pass replaces every occurrence of its header's token by the cell in the same column |
| Outline.SubstituteN | gobdd.go:272-280 | the text after the first n passes of the placeholder loop, where each pass replaces every `<header>` token by the cell in the same column; `Outline.SubstituteStep` states one pass |
| Outline.Substitute | gobdd.go:337-339 | all passes in header order, as in the cell loop of `outlineDataTableArguments` and the text loop of `runOutlineStep` |
| Outline.SubstituteWithoutPlaceholders | gobdd.go:274-278 | a text without `<` comes out of substitution unchanged |
| Outline.RegexpForVar | gobdd.go:500-512 | `(\d+)` exactly for values `Atoi` accepts, the float pattern exactly for the others `ParseFloat(.., 32)` accepts, and the literal `string` for the rest |
| Outline.Register | gobdd.go:289 | `AddStep` on a registry value: append exactly when the callback validates, otherwise leave it as it is (`Gobdd.Suite.AddStep` is proved to do this) |
| Outline.DerivedDef | gobdd.go:281-288 | the derived definition: the found pattern with the token replaced by `getRegexpForVar`'s pattern for the row value, with the same callback |
| Outline.RegisterDerived | gobdd.go:274-289 | one placeholder pass on the registry: no change when the token is absent or `findStepDef` fails on the text so far, otherwise the derived definition is registered |
| Outline.Registrations | gobdd.go:272-290 | the registry after the placeholder loop of one template step, each pass looking up the text as substituted so far |
| Outline.ExpandRegistry | gobdd.go:269-290 | the registry after expanding the first m template steps of a row |
| Outline.RegisterDerivedGrows | gobdd.go:281-289 | one placeholder appends at most one definition, with a callback already registered |
| Outline.RegistrationsGrow | gobdd.go:272-290 | expanding one template step only appends to the registry, at most one entry per placeholder, keeping every callback validated and no new callback |
| Outline.ExpandRegistryGrows | gobdd.go:269-290 | the same for all the steps of one row |
| Outline.OutlineRegistry | gobdd.go:248-260 | the registry after expanding every row in turn; the definitions derived for one row stay for the rows after it |
| Outline.OutlineRegistryGrows | gobdd.go:248-260 | over all rows the registry only grows at its end, keeps every callback validated and gains no new callback |
| Outline.OutlineTableMeaning | gobdd.go:328-351 | the outlined table has the original's node, row count and per-row cell count, every cell with the same node and its value substituted; that description determines the table |
| Outline.OutlineStepsMeaning | gobdd.go:292-301 | one step per template step, in order, keeping node and keyword, with substituted text and table; that description determines the steps |
| Outline.OutlineTable | gobdd.go:328-351 | the substituted copy of a data table; `Outline.OutlineTableMeaning` characterises it |
| Outline.OutlineArgument | gobdd.go:318-326 | a table argument is outlined and any other argument is kept |
| Outline.OutlineSteps | gobdd.go:292-301 | the cloned steps of a row: same node and keyword, substituted text and argument; `Outline.OutlineStepsMeaning` characterises them |
| Outline.BlockRows | gobdd.go:249-256 | the rows of one block paired with its header; a block without rows gives none |
| Outline.ExampleRows | gobdd.go:248-256 | the rows of all blocks, block after block in declaration order |
| Outline.ExampleRowsCount | gobdd.go:248-260 | the number of rows expanded is the total of the blocks' body rows |
| Outline.RunsCount | gobdd.go:248-260 | N template steps and M rows give M runs of N steps |
| Gobdd.Contains | gobdd.go:491-498 | `contains` is list membership |
| Gobdd.CheckArity | gobdd.go:398-401 | the call proceeds exactly when the callback takes one parameter more than there are captures; otherwise the error reports both counts |
| Gobdd.ValidatedArity | gobdd.go:398-401 | a registered callback takes the context first, so a successful arity check means one capture per remaining parameter |
| Gobdd.Suite.constructor | gobdd.go:94-100 | a new suite has the given options and no steps |
| Gobdd.Suite.AddStep | gobdd.go:114-126 | returns the validation error and leaves the registry untouched, or appends exactly one definition at the end |
| Gobdd.Suite.AddRegexStep | gobdd.go:140-152 | the same with a compiled pattern |
| Gobdd.Suite.FindStepDef | gobdd.go:444-464 | the loop returns the selection of `SelectDef`: most matches, earliest on a tie, error when nothing matches |
| Gobdd.Suite.SkipScenario | gobdd.go:466-484 | an ignored tag always skips; an empty include list runs every other scenario; otherwise a scenario runs exactly when one of its tags is included |
| Gobdd.Suite.RunOutlineStep | gobdd.go:267-304 | returns the outlined template steps for the row; the registry afterwards is the old one with the derived definitions appended |
| Gobdd.Suite.SubstitutePlaceholders | gobdd.go:272-290 | the text after the placeholder loop is the full substitution, and the registry has grown by that step's registrations |
| Gobdd.Suite.GetOutlineArguments | gobdd.go:318-326 | a table argument is outlined, any other argument is kept |
| Gobdd.Suite.OutlineDataTableArguments | gobdd.go:328-351 | fills fresh row and cell arrays and returns the outlined table |
| Gobdd.Suite.RunScenarioOutline | gobdd.go:244-265 | one run per row of every non-empty block, in order, each the template outlined with that row; the registry afterwards is `OutlineRegistry` over all those rows, with the same callbacks |
| Gobdd.Suite.RunExamples | gobdd.go:253-260 | one run per row of a block, in order; the registry afterwards is `OutlineRegistry` over the block's rows |

## Left out

- File and parser I/O are not modelled: `Run`, `executeFeature`, `runFeature`, the Gherkin parser, `t.Run` nesting and test reporting. `skipScenario` is modelled, but not its call site.
- Invoking the callback is not modelled: `reflect.Call`, `paramType`'s conversions and panic recovery in `runStep`. Only the arity check is. `runScenarioOutline` returns the expanded runs instead of executing them, and the fresh `context.Background()` per row is not modelled.
- Floating point is not modelled: `GetFloat32/64Param`, the float getters' values (kept as bit patterns) and the float test in `getRegexpForVar`, which is a parameter of the engine.
- The regular-expression engine is a parameter. Pattern compilation always succeeds in the model, so the panic of `regexp.MustCompile` on a derived pattern that does not compile is not modelled.
- `callBeforeScenarios`/`callAfterScenarios` and the `SuiteOptions` builders, including the hook lists, are not modelled. They are closure loops and record updates.
- Package `context` declares its parameter accessors twice, and the two copies differ:
  - context/context.go:32-143 and context/getparam.go:9-136 overlap.
  - `GetIntParam` uses `strconv.Atoi` (the int64 range) at context/context.go:76, but `ParseInt(.., 10, 32)` at context/getparam.go:68.
  - `GetFloat64Param` parses at 32 bits at context/context.go:46, but at 64 bits at context/getparam.go:52.
  - context/context.go has no `GetBoolParam`.
  
  The model of package `context` follows the generated context/getparam.go. Only `GetParam`, which exists only in context/context.go, comes from that file. The accessors of context.go (package gobdd) are modelled separately in `GobddContext`. Its `GetIntParam` uses `Atoi`, as context.go:74-79 does.
- In Go both `Context` types are structs passed by value. Copies share the `values` map, but each copy has its own `params` slice header. `SetParams` (context/context.go:160-162) and `setParams` (context.go:260-262) have pointer receivers, so they update only the copy they are called on. The Dafny classes are references, so every copy aliases the whole context, parameters included. The model does not capture a copy whose parameter list stays behind after `SetParams` on another copy.
- Keys of package `context` are any type with equality. Go's run-time panic for a non-comparable interface key is not modelled.
- Go strings are taken to hold one character per byte. Parameter bytes map to the character of the same code.
- The placeholder loop of `runOutlineStep` (gobdd.go:272-280) indexes `group.Cells[i]` only for a header whose token occurs in the step text, and `outlineDataTableArguments` (gobdd.go:337-338) indexes it for every header cell when the step carries a data table. The model requires every row to be at least as wide as the header (`RowsFit`), which the Gherkin parser guarantees, so the out-of-range panic of a narrower row is not modelled.
- HTTP helpers, reporters, code generators, filesystem embedding and `step/func.go` are outside this model.
- `Strconv.Atoi`: the 64-bit platform `int` is assumed, so `Atoi` is `ParseInt(s, 10, 64)`. On 32-bit platforms the range would be narrower.

## Findings

| source | as written | input that shows it | evidently intended | confidence | as-written member | corrected member |
|---|---|---|---|---|---|---|
| context.go:129-142 | `GetInt64Param` calls `strconv.ParseInt(string(data), 10, 32)`, so it rejects every value outside int32 before widening to int64 | a step capture "2147483648" panics with a range error | parse with bit size 64, as the int64 result type and the package-`context` accessor (context/getparam.go:122-135) do | high (not executed) | GobddContext.GetInt64ParamRejectsWideValues | GobddContext.Context.GetInt64ParamIntended |
| steps.go:34-38 | the check of the first parameter returns the message of the second-result check, "the returned value should implement the Error interface" | `func(int) (context.Context, error)` reports a problem with a returned value | a message naming the first parameter and `context.Context` | medium (not executed) | Steps.MessagesCollide | Steps.MessageIntendedDistinct |
