# dbt-hdl test controller, modelled in Dafny

This project models the core of the dbt-hdl VS Code extension (`src/extension.ts`).
The extension discovers HDL simulations and their test cases from the output of
`dbt build`, shows them as a test tree, and runs each test leaf as a `dbt test`
(or, when debugging, `dbt run`) command line. The model covers:

- **Identifiers and commands** (`ids.dfy`). A test item's identifier is a
  colon-separated tag and fields. `Ids.TestId` is the six kinds of identifier.
  `Serialize` and `Parse` convert identifiers to and from strings. `Command`
  builds the command line a run starts for a leaf. It reproduces the
  JavaScript `switch`, including the missing `break` after the `params` case
  (its body falls through into `testCaseGenerator`). A field past the end of
  the split identifier reads `"undefined"`, as JavaScript's `fields[k]` does.
- **The regular expressions** (`patterns.dfy`). Each one is a hand-written
  matcher that finds the leftmost match, as `RegExp.prototype.exec` does:
  - the target-name pattern, with greedy backtracking, so the last `/name/target` segment wins;
  - the `-params=` and `-testcases=` flags;
  - the bench-file pattern;
  - the `TEST_CASE("name")` marker, to find a case's range;
  - the case-insensitive `errors: N, warnings: M` failure headline.
- **Text utilities** (`text.dfy`). These are JavaScript's `split` and `join`,
  which keep empty pieces; the `\s` character class; and the line-ending
  normalisation `split(/\r\n|\r|\n/).join("\r\n")` applied to every
  captured output.
- **Discovery** (`discovery.dfy`). Each output line becomes one simulation
  node. Under it go its `params` children, its generator cases and its bench
  cases; with parameters, each case is added under every parameter child. The
  nodes are added to the controller's keyed item collection (`tree.dfy`). The
  loops are methods, proved against the specification functions `LineNode` and
  `Discover`. Closed forms of the resulting tree and of its leaves are proved
  about those functions.
- **The run loop** (`runner.dfy`). `RunHandler` is the explicit-stack walk of
  `runHandler`. It handles cancellation, excluded items, running leaves, and
  pushing children. The module-wide process map is a class,
  `ProcessRegistry`. The loop is proved equal to the recursive function
  `Drain`. Lemmas about `Drain` state:
  - which leaves a run reports, and in what order;
  - that a run cancelled from pop k reports exactly what its first k pops
    report when nothing cancels it;
  - what the registry holds afterwards.

The child process, the workspace folder, the open documents and the moment of
cancellation are all parameters. `Context.exec` gives the settled outcome of a
command in a directory; this is the first workspace folder's path. `docs` maps
each bench file that can be opened to its text. `cancelAt` is the pop from
which on the cancellation token reports a request.

Where the documented behaviour of the extension and its code disagree, the model follows
the code:

- The simulation identifier is `simulation:` followed by the WHOLE matched
  prefix of the line (`match[0]`), not just the target name.
- The failure message is the FIRST `errors:…, warnings:…` match, because the
  expression has no `g` flag.
- A bench file that cannot be opened adds no bench children at all: the
  `.then` callback never runs.
- `controller.items.add` replaces an item with the same identifier and never
  removes items from earlier discoveries.
- A bare `params` leaf runs its parameter value as the target, with
  `-testcases=<target>`. This comes from the missing `break`.
- Cancellation kills only registry entries left by other runs. A run
  deregisters each leaf before it pops the next item, so it never kills its
  own process.
- Leaves run in the reverse of pre-order, because `queue.pop()` takes the last
  element. An excluded item's whole subtree is skipped.

## Model

| member | source | states |
|---|---|---|
| Text.Split | src/extension.ts:197 | `split(/,/)`, a one-character separator: at least one piece, no piece contains the separator, and joining the pieces with it gives back the string |
| Text.SplitJoin | src/extension.ts:70 | splitting the join of separator-free pieces gives back exactly those pieces |
| Text.SplitLines | src/extension.ts:140 | splitting at CRLF, CR or LF: at least one line, and no line contains CR or LF |
| Text.SplitLinesBreaks | src/extension.ts:140 | the lines and the breaks consumed between them (`Breaks`) put back together give the text; each break is CRLF, CR or LF, and a CR before an LF is never split off on its own |
| Text.SplitLinesUnique | src/extension.ts:140 | any such decomposition of a text into break-free lines and breaks is the one the split finds, so the lines are determined by the text |
| Text.SplitLinesJoin | src/extension.ts:140 | joining break-free lines with CRLF, CR or LF and splitting again gives back the lines, so CRLF is taken as one break |
| Text.NormalizeHasNoBareBreaks | src/extension.ts:109 | normalised output has every CR followed by LF and every LF preceded by CR |
| Text.NormalizeIdempotent | src/extension.ts:123 | normalising already normalised output changes nothing |
| Ids.SimulationTemplate | src/extension.ts:191 | a simulation identifier serialises to `simulation:<target>` |
| Ids.ParamsTemplate | src/extension.ts:198 | a params identifier serialises to `params:<value>:<target>` |
| Ids.TestCaseGeneratorTemplate | src/extension.ts:215 | a generator identifier serialises to `testCaseGenerator:<target>:<case>` |
| Ids.ParamsTestCaseGeneratorTemplate | src/extension.ts:211 | serialises to `paramsTestCaseGenerator:<target>:<value>:<case>` |
| Ids.TestBenchTemplate | src/extension.ts:244 | a bench identifier serialises to `testBench:<target>:<case>` |
| Ids.ParamsTestBenchTemplate | src/extension.ts:237 | serialises to `paramsTestBench:<target>:<value>:<case>` |
| Ids.Parse | src/extension.ts:70-71 | whatever an identifier parses to has colon-free fields and serialises back to that identifier |
| Ids.FieldsOfSerialize | src/extension.ts:70 | splitting a colon-free identifier at `:` gives its tag and fields |
| Ids.ParseSerialize | src/extension.ts:70-74 | every colon-free identifier parses back to itself |
| Ids.MatchingCase | src/extension.ts:74 | the switch enters at the first case whose label equals the tag, or at none |
| Ids.SwitchOnFields | src/extension.ts:74-94 | the runtime arguments each tag selects; `params` takes the `testCaseGenerator` body; an unknown tag selects nothing |
| Ids.RuntimeArgsOfKind | src/extension.ts:96 | the runtime arguments of a colon-free identifier are the verbosity flag followed by what its kind contributes |
| Ids.TargetField | src/extension.ts:71 | `fields[1]` is the target, except the parameter value for a `params` identifier |
| Ids.CommandOfKind | src/extension.ts:98-103 | the full command line of each kind: verb, target, simulator argument, `:`, runtime arguments |
| Ids.ParamsFallsThrough | src/extension.ts:75-81 | a `params` identifier gets the same command as the generator identifier with its fields in place |
| Ids.UnknownTagArgs | src/extension.ts:74-96 | an identifier whose tag no case names gets only the verbosity flag |
| Patterns.FindFirst | src/extension.ts:195 | `exec` without `g`: the first start position that matches, and none before it |
| Patterns.FindLast | src/extension.ts:142 | the greedy `.*` backtracks to the last position that matches, and none after it |
| Patterns.SkipSpaces | src/extension.ts:145 | `\s*` consumes a maximal run of whitespace |
| Patterns.SkipNonSpaces | src/extension.ts:147 | `[^\s]+` consumes a maximal run of non-whitespace |
| Patterns.FlagAt | src/extension.ts:143-161 | a flag matches at a position exactly when the key is there and a non-space character follows it; the captured value is then the maximal whitespace-free run after the key, taken from the line |
| Patterns.FlagIsFirstOccurrence | src/extension.ts:195-197 | the flag value found is the one after the first occurrence of the key that has a value; no match exactly when there is none |
| Patterns.SegmentAt | src/extension.ts:142 | a `/name/target` segment matches at a position exactly when there is a slash there, a non-empty name without `/`, a slash and the target; the match is then that name and ends after the target |
| Patterns.CommentStart | src/extension.ts:142 | `^\s*//`: the line starts with whitespace and two slashes exactly when there is a match, which ends after the slashes |
| Patterns.LineEnd | src/extension.ts:142 | `.*` cannot cross a line terminator: a maximal run without one |
| Patterns.LastSegment | src/extension.ts:142 | the segment the match uses is reachable from the comment start without crossing a line terminator, every reachable segment lies at or before it, and one is found whenever one is reachable |
| Patterns.MatchTarget | src/extension.ts:142 | the match is a prefix of the line with a non-empty `/`-free captured name, and there is a match whenever a segment is reachable from the comment start |
| Patterns.SegmentForm | src/extension.ts:142 | the text up to the end of a segment is the text before it, `/`, the name, `/` and the target |
| Patterns.MatchTargetSegment | src/extension.ts:142 | the match ends with a reachable segment after `//`, and no reachable segment lies beyond it |
| Patterns.MatchTargetText | src/extension.ts:189-190 | `match[0]` is the line up to the segment, then `/<name>/<target>` |
| Patterns.MatchTargetIsLast | src/extension.ts:142 | no later segment the `.*` could reach completes a match: the greedy match uses the last one |
| Patterns.BenchAt | src/extension.ts:163-173 | a bench match starts at whitespace; its file and case list are the slices of the line that a laying of whitespace, file, whitespace, `+testcases=`, cases covers, both non-empty and whitespace-free, and the case list runs to the end of its run |
| Patterns.BenchAtComplete | src/extension.ts:163-173 | wherever whitespace, a file, whitespace, `+testcases=` and a case list can be laid over the line from a position, the expression matches there with that file and a case list extending those cases |
| Patterns.FindBenchIsFirst | src/extension.ts:221 | `exec` gives the match at the first position where the bench expression matches, and no match exactly when no position matches |
| Patterns.MarkerAt | src/extension.ts:112 | a marker match is a laying of `errors:` (any case), whitespace, a digit run, whitespace, `,`, whitespace, `warnings:` (any case), whitespace and a digit run, ending at the last digit of that run |
| Patterns.MarkerAtComplete | src/extension.ts:112-113 | wherever that laying fits from a position, the expression matches there, up to the end of the warnings digit run |
| Patterns.Headline | src/extension.ts:113-119 | with no marker anywhere, the failure message is the whole output |
| Patterns.HeadlineIsFirstMarker | src/extension.ts:113-116 | otherwise the message is the text of the first marker match |
| Patterns.TestCaseAt | src/extension.ts:229 | a case-marker match is a laying of `` `TEST_CASE ``, whitespace, `(`, whitespace, the quoted case name, whitespace and `)`, ending after the `)` |
| Patterns.TestCaseAtComplete | src/extension.ts:229-231 | wherever that laying fits from a position, the expression matches there, up to its `)` |
| Patterns.FindTestCase | src/extension.ts:229-234 | the case's range is the first marker match, and there is none exactly when no position matches |
| Tree.PopShrinks | src/extension.ts:53-127 | popping the last item of the stack and pushing its children leaves exactly one node fewer, which makes the walk terminate |
| Tree.LeavesOfAppend | src/extension.ts:127 | the leaves of two forests side by side are the leaves of each, in order |
| Tree.IndexOfId | src/extension.ts:254 | finds the first item with a given identifier (none before it has that identifier), or shows there is none; the scan is `FindFirst` |
| Tree.AddItem | src/extension.ts:254 | `items.add`: a new identifier goes last, an existing one is replaced at its position; the new item is present, the identifier set gains its id, items with other ids stay, unique ids stay unique |
| Tree.AddAllKeeps | src/extension.ts:186-256 | adding many items: the ids are the old ids plus the new ones, untouched old items stay, uniqueness is preserved |
| Discovery.WithParams | src/extension.ts:197-200 | one `params` child per parameter value |
| Discovery.AddParams | src/extension.ts:197-200 | the loop adding `params` children builds `WithParams` |
| Discovery.AddUnderEach | src/extension.ts:210-213 | `simulation.children.forEach(child => child.children.add(...))` adds one item under each child, built from that child's label |
| Discovery.AddGenerators | src/extension.ts:207-217 | the generator loop builds `WithGenerators`: under every params child when there are parameters, else directly under the simulation |
| Discovery.AddBenches | src/extension.ts:226-251 | the bench loop builds `WithBenches`, with each case's range from the bench text |
| Discovery.ParamsBlock | src/extension.ts:194-202 | the `-params=` block yields exactly `ParamsStep` |
| Discovery.GeneratorBlock | src/extension.ts:204-218 | the `-testcases=` block yields exactly `GeneratorStep` |
| Discovery.BenchBlock | src/extension.ts:220-252 | the bench block yields exactly `BenchStep`, with no children added when the file cannot be opened |
| Discovery.DiscoverLine | src/extension.ts:187-252 | one line processed yields `LineNode` of the line |
| Discovery.AddLine | src/extension.ts:186-255 | a line's simulation, if any, is added to the items |
| Discovery.DiscoverLines | src/extension.ts:186-256 | the `forEach` over the lines adds `Discover(lines)` to the existing items |
| Discovery.DiscoverTests | src/extension.ts:134-259 | a rejected build leaves the items unchanged; otherwise the output is split into lines and their simulations added |
| Discovery.DiscoverItems | src/extension.ts:186-256 | at most one simulation per line, and each is the node of some line |
| Discovery.LineNodeShape | src/extension.ts:189-252 | closed form of a simulation's children: with parameters, each value carries all its generator cases then its bench cases; else generator cases then bench cases |
| Discovery.StepsShape | src/extension.ts:194-252 | the params, generator and bench blocks run one after the other build that closed form from the line's flags, cases and bench match |
| Discovery.ComposeParams | src/extension.ts:194-252 | the three blocks with parameters compose to the closed-form params tree |
| Discovery.ComposeFlat | src/extension.ts:204-252 | the blocks without parameters compose to the generator cases followed by the bench cases |
| Discovery.LeavesOfParamsTree | src/extension.ts:208-242 | when there are cases, the leaves of the params tree are the cases under each value in turn |
| Discovery.ParamsLeavesCount | src/extension.ts:208-242 | there are (number of values) × (number of generator and bench cases) such leaves |
| Discovery.ParamsLeavesCross | src/extension.ts:208-242 | a node is such a leaf if and only if it is the case node for some value and some case |
| Discovery.ParamsShapeLeaves | src/extension.ts:194-242 | a parameterised simulation's leaves: the cross product, or the bare `params` nodes when there are no cases |
| Discovery.FlatShapeLeaves | src/extension.ts:204-248 | a simulation without parameters has its cases as leaves, or is itself the only leaf |
| Discovery.ShapeLeaves | src/extension.ts:194-248 | the leaves of a node shaped like a simulation, in both cases |
| Discovery.LineLeaves | src/extension.ts:187-252 | the tests a run of a discovered simulation executes, by the shape of its line |
| Discovery.NodeIds | src/extension.ts:191-244 | every node discovery builds carries the serialised identifier of its kind |
| Discovery.SimulationLeaf | src/extension.ts:191 | for a colon-free match, a simulation identifier parses back, and as a leaf runs with no runtime argument besides the verbosity |
| Discovery.ParamsLeaf | src/extension.ts:198 | for colon-free fields, a `params` identifier parses back, and its command targets the parameter value with `-testcases=<target>` |
| Discovery.GeneratorLeaf | src/extension.ts:215 | for colon-free fields, a generator identifier parses back, and its command passes `-testcases=<case>` |
| Discovery.ParamsGeneratorLeaf | src/extension.ts:211 | for colon-free fields, parses back, and its command passes `-params=<value> -testcases=<case>` |
| Discovery.BenchLeaf | src/extension.ts:244 | for colon-free fields, a bench identifier parses back, and its command passes `+testcases=<case>` |
| Discovery.ParamsBenchLeaf | src/extension.ts:237 | for colon-free fields, parses back, and its command passes `-params=<value> +testcases=<case>` |
| Runner.ProcessRegistry.constructor | src/extension.ts:6 | the process map starts empty, with nothing killed |
| Runner.ProcessRegistry.Register | src/extension.ts:10 | `processes.set`: the identifier now maps to the new process, and a replaced process is not killed |
| Runner.ProcessRegistry.Deregister | src/extension.ts:107 | `processes.delete`: only that identifier is removed |
| Runner.ProcessRegistry.KillAndForget | src/extension.ts:57-58 | the registered process, if any, is killed once, then forgotten |
| Runner.ProcessRegistry.KillAll | src/extension.ts:319-324 | one kill per registry entry, in the order of a list of distinct registered identifiers; every registered process is killed, only registered processes are, and the map is unchanged |
| Runner.Report | src/extension.ts:106-124 | passed exactly when the command resolved; the log is the normalised output, without bare breaks; a failure's message is the headline of the output |
| Runner.ExecTest | src/extension.ts:8-18 | the process is registered under the test's identifier, and the outcome is that of the command in the folder |
| Runner.Visit | src/extension.ts:67-125 | a leaf with a folder is run, reported, and removed from the registry; any other item reports nothing and leaves the registry unchanged |
| Runner.Pop | src/extension.ts:52-128 | one turn of the loop leaves the rest of the run as `Drain` describes it |
| Runner.RunHandler | src/extension.ts:30-131 | the report and the final registry are those of `Drain` from the requested items, or from all items |
| Runner.Reverse | src/extension.ts:53 | the reversed order in which a stack pops its items |
| Runner.DrainReportsLeaves | src/extension.ts:42-128 | with a workspace folder and without cancellation, one event per non-excluded leaf under the queue, in reverse pre-order |
| Runner.DrainWithoutFolder | src/extension.ts:67 | without a workspace folder and without cancellation nothing is reported and the registry is untouched |
| Runner.DrainAfterCancel | src/extension.ts:56-59 | once cancellation is requested nothing more is reported |
| Runner.CancelledIsPrefix | src/extension.ts:56-59 | a cancelled run's report is a prefix of the uncancelled report |
| Runner.CancelledReport | src/extension.ts:52-128 | a run cancelled from pop k on reports exactly what the first k pops of the run report uncancelled |
| Runner.PopsCoverRun | src/extension.ts:52-128 | given at least one pop per node under the queue, the bounded walk reports exactly what the uncancelled run reports |
| Runner.DrainRegistry | src/extension.ts:52-128 | no identifier is added, reported ids are gone, kills only append, and every process killed was registered before the run began |
| Runner.UncancelledRegistry | src/extension.ts:105-124 | with a workspace folder and without cancellation nothing is killed, and exactly the run leaves' identifiers leave the registry |

## Left out

- Wall-clock durations passed to `run.passed` and `run.failed` (`Date.now()`) are not modelled; events carry no duration.
- The VS Code API is replaced by values. Test items are `TestNode` values. The run's `appendOutput` text is the event's `log`. `TestMessage` is a string.
- `request.exclude?.includes` compares test items by identity. The model compares `TestNode` values.
- Asynchrony and concurrency are not modelled. Each command is treated as settling before the next pop, as `await` makes it. Bench children, which the source adds in a later `.then`, are added at once; the final tree is the same. Overlapping runs or discoveries are not modelled.
- `cp.exec` becomes a function from command and directory to the settled outcome (`Context.exec`). Its stderr is ignored, as the source ignores it.
- `vscode.workspace.openTextDocument` is a map from file name to text. `Uri.file` path normalisation is not modelled; the uri is the captured file name.
- A range is a pair of character offsets into the bench text. `doc.positionAt` line and column positions and UTF-16 code units are not modelled.
- The configured target and the test-case names are spliced into regular expressions without escaping. The model reads them as literal text, so a name holding regex metacharacters is outside the model.
- `simulation.children.add` and `child.children.add` append. The model does not replace a child with a duplicate identifier within one simulation.
- The workspace-folder guard of `discoverTests` is not modelled; `DiscoverTests` starts from the build's settled outcome.
- The unused `testcaseRegExp` (src/extension.ts:175-184) is not modelled.
- `activate` is the registration of profiles, the command and file watchers. It only wires callbacks and is not modelled.
- Case-insensitive matching folds only ASCII letters. This is exact for the ASCII pattern, because without the `u` flag no other character folds onto an ASCII letter.
