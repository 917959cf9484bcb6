# Metaproc, verified

A Dafny model of the parts of Metaproc on which other parts rely without seeing them fail: a static check of file
writes, the layering of Gemini settings, the walk over a run tree with the projection of tasks and outputs built on
it, the compress-and-replace protocol, two ways of following logs, typed IDs, the check of code handlers, the two
version comparisons, and the `.env` template with its loader. Where the source changes state step by step, the model
has methods and classes that do the same, each proved against a specification; the results are proved about the
specifications. `dafny verify dfyconfig.toml` checks the project.

- **Write check** (`PyAst`, `WriteScanner`, `ScannerMonotonicity`: a fragment of Python with assignments, `with`, `if`,
  `for`, `while`, `try`, jumps, functions and classes, and the scanner as a class). `PyRuns` says what a run can do to
  files when an oracle decides everything the text does not. `StagingFlow` is a reference analysis that follows loops,
  exceptions, jumps and the end of places; it is proved sound (`FlowSoundness`, `RunSoundness`, `RunsInside`) and exact
  (`PyLiterals`, `RunWitness`, `ExprWitness`, `StmtWitness`, `WithWitness`, `RunExactness`, `LeakExactness`,
  `ScannerExact`) for the runs, and monotone (`StagingMonotonicity`). Against it the scanner is judged: sound for every
  *tracked* program (`ScannerSoundness`), with the exact condition for each construct that it does not follow
  (`CallExactness`, `ScannerLimits`), families of programs on which it is wrong (`ScannerGaps`), and the reason why no
  reference of this kind decides every call (`OpenCorrelation`). In the other direction it raises no false alarm where
  its rules keep what a program relies on (`ScannerPrecision`), and each finding is at the call that it is about
  (`ScannerReport`). Each result comes in two forms, with `ever` for private
  places that have ever been made and without for those that still exist.
- **Gemini settings** (`GeminiSettings`, `SettingsInEffect`, `CommentStripper`). JSON as a recursive datatype, the deep
  merge with its law at every path, the override detector against Gemini's own merge, and the launch as a whole.
- **Run tree and projection** (`RunTreeWalk`, `RunTreeProperties`, `RunTreeOrder`, `RunTreeExact`, `RunTreePaths`,
  `ScopeAcceptance`, `RuntimeScan`, `ChildScopeCoverage`, `PurePaths`, `PathRebasing`, `OutputProjection`). A tree is a
  graph of resolved directories whose entries may lead anywhere.
- **Compression** (`CompressProtocol`). A state machine over source, destination and staging file, with a fault at any
  step and a concurrent producer: nothing is lost, and without faults it completes.
- **Following logs** (`LogFollow`, `LiveFollow`).
- **Typed IDs** (`Numerals`, `TypedIds`, `IdLineage`).
- **Handler check** (`HandlerCheck`, `HandlerCheckExact`, `HandlerCheckVerdict`).
- **Versions and `.env`** (`PyText`, `VersionOrder`, `VersionReaders`, `EnvTemplate`, `EnvLines`).

## What the proofs found

These properties, which one would expect, fail; each has a lemma with inputs that show it, and the condition under
which the code does meet the property.

- The write check is silent on programs that truncate a published path: through `.open` of a module or class such as
  `tarfile.open(out, "w:gz")` (`CallExactness`), and through `for ... else`, a second round, `break`, `try`, a context
  manager that swallows an exception, a place that ends with its `with`, and a decorator (`ScannerGaps`).
- It also reports safe writes: what the body of a `with` or `for` has staged is forgotten behind it
  (`ScannerPrecision.WithAlarm`).
- A declared child scope with a state directory whose step id or item key begins with a dot, `worker-` or `slot-` is
  neither walked nor reported as missing, although such keys are safe item keys (`ChildScopeCoverage.KeyExactly`).
- When symlinks give a scope directory two paths, as one to an enclosing scope does, some scope is not yielded under its
  own path (`RunTreePaths.LinkedExact`).
- A recorded output path that leads up rebases differently in two moves than in one (`PathRebasing.ComposesExactly`).
- A write between the re-stat and the delete is lost (`CompressProtocol.SafeExactly`).
- An entry that becomes visible later than the overlap of the polling windows can be missed
  (`LogFollow.DeliveryBound`).
- A spec file that is a symlink to another directory is checked by one of its paths only
  (`HandlerCheckVerdict.LinkedSpecMissed`, with the exact condition in `LayoutExact`).
- Ten consecutive failed reads of the Batch state do not stop a follow, against the docstring: eighteen can be survived
  when views fail too, because the limit is looked at only when the view can be read (`LiveFollow.UnknownExactly`).
- An underscore-compact parent keeps its family only at the default length (`IdLineage.ChildShape`), and the two
  version readers disagree on digits behind the dotted number (`VersionReaders.AgreeOnText`).

## Model

| member | source | states |
|---|---|---|
| ScannerSoundness.SilenceMeansStaged | devtools/check_atomic_writes.py:109-250 | Soundness of the write check: in a tracked module without findings, on every run (any values of unknown expressions, any branch, any number of loop rounds, exceptions anywhere, later calls of any function), no write truncates a path outside the private places ever made, or outside those that exist at that moment. As far as places ever made count, a `with` whose items are all staging binders is tracked whatever its body rebinds |
| ScannerSoundness.TrackedAgrees | devtools/check_atomic_writes.py:116-187 | One tracked statement without findings, from any larger set of private names: nothing in it may be truncated but staged paths, and whatever the scanner trusts afterwards is private |
| ScannerSoundness.BlockAgrees | devtools/check_atomic_writes.py:145-146 | The same for a block |
| ScannerSoundness.SilentCall | devtools/check_atomic_writes.py:217-247 | For a call without a finding: what it may truncate is staged if and only if it is no `.open` on something that need not be a path and whose first argument, opened in the mode of the second, is not staged |
| CallExactness.SilenceRight | devtools/check_atomic_writes.py:217-247 | A call without a finding is safe (from every state in which the staged names are private it truncates nothing outside) if and only if it is no such `.open` |
| CallExactness.CallExact | devtools/check_atomic_writes.py:217-247 | For every call: what it truncates is private in all runs if and only if the reference takes it to be staged |
| CallExactness.OpenUnsafe | src/metaproc/cloud/gcp/dispatch_artifacts.py:248-248 | Counterexamples: `tarfile.open(out, "w:gz", ...)` and its like have no finding and truncate a published path |
| CallExactness.OpenUndecided | devtools/check_atomic_writes.py:217-247 | Counterexamples: when a name has been made a path before, the same call is safe and the reference is not quiet, which is why exactness for programs leaves such calls out |
| OpenCorrelation.OpensTogether | devtools/check_atomic_writes.py:217-247 | Counterexamples: a call is safe in every run although it is reached with its receiver no path and with its file outside, each in some run, never both: what is known of each name by itself does not tell |
| ScannerExact.StatementExact | devtools/check_atomic_writes.py:116-187 | For every statement, loops, `try` and scopes included, without an `.open` that the text leaves undecided: the scanner handles it right (nothing outside is truncated, and what is trusted afterwards is private, from every state that fits and on every run) if and only if the reference agrees with it |
| ScannerExact.ProgramExact | devtools/check_atomic_writes.py:109-250 | For every program without such an `.open`: no run truncates a path outside the private places if and only if the reference is quiet |
| ScannerPrecision.NoFalseAlarm | devtools/check_atomic_writes.py:109-250 | No false alarm: a program that truncates nothing outside on any run has no findings, provided every undecided call is clear and nothing is relied on that the scanner's own rules forget |
| ScannerPrecision.ClearExact | devtools/check_atomic_writes.py:109-250 | Of such a program that is tracked as well, the verdict is exact: there is no finding if and only if no run truncates a path outside |
| ScannerPrecision.WithAlarm | devtools/check_atomic_writes.py:133-147 | Counterexamples, in the other direction: a private place that the body of a `with` makes is forgotten behind it, and a write there is reported although it is safe on every run |
| ScannerPrecision.QuietSilent | devtools/check_atomic_writes.py:116-187 | The same for one statement, `try`, `with` and loops included: where the reference is quiet there is no finding, and the scanner goes on trusting what the reference says is private |
| ScannerPrecision.ExitChange | devtools/check_atomic_writes.py:116-187 | For every statement: a name that it does not bind is staged after it if and only if it was before; what a `with` or `for` binds is not staged after it; definitions, imports and `del` change nothing |
| ScannerReport.StmtAccounts | devtools/check_atomic_writes.py:249-250 | Each finding is about a call of the statement, at its line and under its name, and every call that is to be reported whatever is staged is reported, however deep it stands |
| ScannerReport.ExprReport | devtools/check_atomic_writes.py:213-215 | An expression is reported for exactly those of its calls that a description of the three kinds of write covers, which names arguments by position or first keyword |
| RunSoundness.StmtFits | devtools/check_atomic_writes.py:109-250 | Whatever the reference promises to be private at a way out of a statement is private at the end of each run that leaves that way |
| RunsInside.StmtInside | devtools/check_atomic_writes.py:109-250 | A run of a statement about which the reference is quiet truncates nothing outside |
| RunExactness.StmtAble | devtools/check_atomic_writes.py:109-250 | Whatever the reference does not promise fails: for each way out and each name not promised there, some run leaves that way with the name outside |
| LeakExactness.StmtLeaks | devtools/check_atomic_writes.py:109-250 | A statement about which the reference is not quiet truncates a path outside in some run |
| ExprWitness.EvalLoses | devtools/check_atomic_writes.py:189-211 | An expression that does not count as staging has a value outside in some run |
| FlowSoundness.StagingValue | devtools/check_atomic_writes.py:189-211 | An expression that counts as staging evaluates to a path inside a private place in every run |
| StagingMonotonicity.LoopLargest | devtools/check_atomic_writes.py:179-185 | What the reference keeps at the head of a loop contains every set of entry names that each round keeps |
| StagingMonotonicity.FollowMonotone | devtools/check_atomic_writes.py:116-187 | The reference is monotone at every way out of every statement |
| ScannerMonotonicity.Monotone | devtools/check_atomic_writes.py:116-187 | Monotonicity of the scanner, for all statements: with more staged names the exit set is larger and the findings are a subset |
| ScannerMonotonicity.BlockMonotone | devtools/check_atomic_writes.py:145-146 | Monotonicity for blocks |
| ScannerMonotonicity.ExprMonotone | devtools/check_atomic_writes.py:189-211 | With more staged names an expression has no new findings |
| ScannerLimits.ForExact | devtools/check_atomic_writes.py:179-185 | A `for` over a body of assignments and branches is handled right if and only if the body has no findings when read with the names that every round keeps, and no other name is trusted afterwards |
| ScannerLimits.WhileExact | devtools/check_atomic_writes.py:109-250 | A `while` likewise, with its test |
| ScannerLimits.TryExact | devtools/check_atomic_writes.py:109-250 | A `try` with such parts is handled right if and only if its handlers have no findings when read with the names that are staged wherever the body may be interrupted, and every way through it keeps the names trusted afterwards |
| ScannerLimits.WithExact | devtools/check_atomic_writes.py:133-147 | A `with` of staging binders is handled right, as far as places ever made count, whenever it has no findings; as far as existing places count, if and only if the names trusted afterwards are staged without the names of its items |
| ScannerLimits.RebindExact | devtools/check_atomic_writes.py:109-250 | A statement that rebinds names without a visit method of its own is handled right if and only if none of the names is staged |
| ScannerLimits.DefExact | devtools/check_atomic_writes.py:116-120 | A definition is handled right if and only if it binds no staged name and neither its decorators and defaults, read with the names around it, nor its body have findings |
| ScannerGaps.ForElseUnsafe | devtools/check_atomic_writes.py:183-184 | Counterexamples: a `for ... else` without findings that truncates a published path when there is no round |
| ScannerGaps.LoopUnsafe | devtools/check_atomic_writes.py:183-184 | Counterexamples: a loop whose first round writes to a private path and whose second writes to a published one |
| ScannerGaps.BreakUnsafe | devtools/check_atomic_writes.py:183-185 | Counterexamples: a loop left by `break` before a name is staged again |
| ScannerGaps.TryUnsafe | devtools/check_atomic_writes.py:109-250 | Counterexamples: a handler reached before the name was staged |
| ScannerGaps.SwallowUnsafe | devtools/check_atomic_writes.py:145-147 | Counterexamples: a context manager that swallows an exception |
| ScannerGaps.EndedUnsafe | devtools/check_atomic_writes.py:145-147 | Counterexamples: a name that holds a path below the place of a `with` and outlives it |
| ScannerGaps.DecoratorUnsafe | devtools/check_atomic_writes.py:116-120 | Counterexamples: a decorator judged with the names that the function body staged |
| WriteScanner.Scanner.VisitStmt | devtools/check_atomic_writes.py:109-250 | The visitor, statement by statement: the new `staged` set and the findings appended are those of the specification over which soundness and monotonicity are proved |
| WriteScanner.Scanner.VisitExpr | devtools/check_atomic_writes.py:213-215 | A visit of an expression appends its findings and leaves `staged` alone |
| WriteScanner.Scanner.Bind | devtools/check_atomic_writes.py:162-166 | Binding removes the bound names and adds them again if the value is staged; nothing else changes |
| WriteScanner.Scanner.VisitAssign | devtools/check_atomic_writes.py:151-155 | Assignment: the value is visited first, then all targets are bound alike |
| WriteScanner.Scanner.VisitWith | devtools/check_atomic_writes.py:133-147 | The `with` rule, with its restored names |
| WriteScanner.Scanner.VisitIf | devtools/check_atomic_writes.py:168-177 | The `if` rule: both branches from the same set, their results intersected |
| WriteScanner.Scanner.VisitFor | devtools/check_atomic_writes.py:179-185 | The `for` rule: body and `else` in one pass, intersected with the set before |
| WriteScanner.Scanner.VisitScope | devtools/check_atomic_writes.py:116-120 | A scope is visited with an empty set, and the outer set is restored |
| WriteScanner.Scan | devtools/check_atomic_writes.py:109-250 | The findings of a module are those of its statements from the empty set |
| SettingsInEffect.AssertedInEffect | src/metaproc/adapters/gemini_cli.py:387-429 | End to end: for every template, override and workspace file, in a launch that is not refused every leaf of the native settings has its asserted value in what Gemini runs with |
| SettingsInEffect.DefaultInEffect | src/metaproc/adapters/gemini_cli.py:711-728 | A default leaf is in effect if and only if the profile block neither sets it to another value nor replaces an enclosing object |
| SettingsInEffect.RetentionOff | src/metaproc/adapters/gemini_cli.py:466-483 | Session retention stays off in a launch that is not refused if and only if the profile block does not touch the key or sets it to false itself |
| SettingsInEffect.BaseRetention | src/metaproc/settings.py:188-246 | The layered defaults switch session retention off |
| SettingsInEffect.DetectorExact | src/metaproc/adapters/gemini_cli.py:354-384 | The override detector reports nothing if and only if Gemini's own merge (whole entries under `mcpServers`) keeps every asserted setting |
| SettingsInEffect.ReportsFirstLosses | src/metaproc/adapters/gemini_cli.py:354-384 | The reported paths are exactly the places where the merge first loses an asserted setting |
| SettingsInEffect.HomeCarries | src/metaproc/adapters/gemini_cli.py:303-310 | The private home carries all native settings, whatever template they are layered on |
| SettingsInEffect.InEffect | src/metaproc/adapters/gemini_cli.py:387-429 | What the home carries and the detector does not report survives the workspace |
| SettingsInEffect.LaunchExactly | src/metaproc/adapters/gemini_cli.py:387-429 | A launch goes ahead if and only if there is no workspace file, or one with a JSON object over which Gemini's own merge keeps every native setting |
| SettingsInEffect.WorkspaceElseTemplate | src/metaproc/adapters/gemini_cli.py:303-318 | A key that the native settings say nothing about has the workspace's value, and the template's where the workspace leaves it open |
| SettingsInEffect.GeminiMergeAt | src/metaproc/adapters/gemini_cli.py:354-384 | Gemini's merge, pointwise at every path, with whole entries under `mcpServers` and nowhere else |
| GeminiSettings.MergeAt | src/metaproc/adapters/gemini_cli.py:460-483 | Deep merge, pointwise at every path: the override wins, and the base shows through exactly where no enclosing value was replaced |
| GeminiSettings.MergeIdempotent | src/metaproc/adapters/gemini_cli.py:460-483 | Layering the same settings twice is layering them once |
| GeminiSettings.DeepMerge | src/metaproc/adapters/gemini_cli.py:460-483 | The loop over the override computes the merge of which the pointwise law holds |
| GeminiSettings.OverriddenSettings | src/metaproc/adapters/gemini_cli.py:354-384 | The loop collects exactly the paths that the detector's specification reports |
| CommentStripper.StripJsonComments | src/metaproc/adapters/gemini_cli.py:321-346 | The index loop computes: lex the text, drop comments, spell out the rest; strings survive verbatim |
| CommentStripper.KeptIsStrip | src/metaproc/adapters/gemini_cli.py:326-346 | The loop's state machine refines the lexer |
| CommentStripper.SpellLex | src/metaproc/adapters/gemini_cli.py:326-346 | The tokens of a text concatenate back to the text |
| CommentStripper.LexFits | src/metaproc/adapters/gemini_cli.py:326-346 | Each token fits a description that does not mention how it is found, unterminated strings and comments included |
| CommentStripper.LexUnique | src/metaproc/adapters/gemini_cli.py:326-346 | There is only one such tokenisation |
| CommentStripper.StripExactly | src/metaproc/adapters/gemini_cli.py:321-346 | What is left of a text has exactly its tokens that are no comments |
| CommentStripper.StripTwice | src/metaproc/adapters/gemini_cli.py:321-346 | Stripping is idempotent for every text |
| RunTreeProperties.WalkSafe | src/metaproc/paths.py:212-271 | On every directory graph, symlink cycles included: each yielded scope has state, resolves inside the root and is where its path leads; no resolved directory is yielded twice; each scope comes after the scope one or two names above it |
| RunTreeOrder.WalkPrefixFirst | src/metaproc/paths.py:212-271 | No path is yielded before one of its prefixes, or twice |
| RunTreeExact.NoDirectoryMissed | src/metaproc/paths.py:212-271 | On every graph the yielded directories are closed under the one-level and two-level rule |
| RunTreeExact.WalkExact | src/metaproc/paths.py:230-271 | Where no entry is a symlink the order is the preorder of the scopes, and a path is yielded if and only if it splits into steps and step-item pairs that are scopes |
| RunTreePaths.LinkedExact | src/metaproc/paths.py:230-271 | On every directory graph whose listings repeat no name, symlinks anywhere: each path that the one-level and two-level rules give is yielded with its directory if and only if the rules give no directory two paths, and then nothing else is yielded |
| RunTreePaths.LoopRenames | src/metaproc/paths.py:245-269 | Counterexamples: a link that leads from a scope back to it costs some scope its own path |
| RunTreePaths.StraightOnePath | src/metaproc/paths.py:230-271 | Where no entry is a symlink the rules give no directory two paths |
| RunTreeWalk.CompositeRunDirs | src/metaproc/paths.py:212-271 | The generator, run to its end, yields the specified walk; it terminates because each claimed directory leaves the set of unseen ones |
| RunTreeWalk.Walker.VisitScope | src/metaproc/paths.py:257-269 | The walk of one scope: what it yields and what it has seen afterwards |
| RunTreeWalk.Walker.VisitStep | src/metaproc/paths.py:258-263 | A step directory is yielded and walked, or searched for items, never both |
| RunTreeWalk.Walker.VisitItems | src/metaproc/paths.py:264-269 | The items of a step directory |
| RunTreeWalk.Walker.ClaimScope | src/metaproc/paths.py:245-255 | A directory is claimed if it has state, resolves inside the root and is not in the shared set; claiming adds it |
| ScopeAcceptance.AcceptedExactly | src/metaproc/runtime_projection.py:80-95 | Acceptance does not depend on the walk order: a walked scope is accepted if and only if it is the root or declared by its nearest accepted parent, and has a plan |
| ScopeAcceptance.AcceptedSegment | src/metaproc/runtime_projection.py:302-330 | Every accepted path continues its nearest accepted parent by a scalar composite step, or a mapped one and a safe declared item key |
| ScopeAcceptance.SplitUnique | src/metaproc/runtime_projection.py:302-330 | That split is unique: no other accepted prefix continues to the path by a segment of its plan |
| ScopeAcceptance.ScopeIsDeclared | src/metaproc/runtime_projection.py:302-330 | The check answers whether the nearest accepted parent declares the rest of the path |
| ScopeAcceptance.AcceptScopes | src/metaproc/runtime_projection.py:80-95 | The incremental acceptance loop computes the accepted scopes with their plans |
| ScopeAcceptance.BundleForScope | src/metaproc/runtime_projection.py:230-245 | The index loop walks the bundle as its recursive reading does |
| ScopeAcceptance.BundleConcat | src/metaproc/runtime_projection.py:230-245 | Walking a path in two pieces is walking it in one |
| ScopeAcceptance.BundleExactly | src/metaproc/runtime_projection.py:230-245 | The bundle of a path is found by going down through scopes of the plans on the way, and by nothing else |
| ScopeAcceptance.BundleStepsFromParent | src/metaproc/runtime_projection.py:230-245 | In bundle mode the one-pass walk picks the same plan as stepping from the nearest accepted parent's bundle |
| RuntimeScan.Conservation | src/metaproc/runtime_projection.py:76-172 | A scan that does not raise loses and duplicates no task: each declared task of an accepted scope is counted exactly once among tasks and `task-state-missing` gaps, by whether its state is recorded, and nothing else is. A declared task is described by the plan's text: the step itself, or an item of it |
| RuntimeScan.Scan | src/metaproc/runtime_projection.py:80-173 | The scan loop over the walked scopes: acceptance, missing child scopes and tasks, or an exception, exactly if some scope that is declared when the walk gets there has an unreadable plan or a task whose records contradict one another |
| RuntimeScan.RaisesExactly | src/metaproc/runtime_projection.py:80-173 | Which scopes can end the scan does not depend on the order: those that are the root or declared by their nearest accepted parent |
| RuntimeScan.DeclaredExactly | src/metaproc/runtime_projection.py:377-407 | The tasks looked for are exactly the declared tasks of the accepted scopes |
| RuntimeScan.AllDeclaredOnce | src/metaproc/runtime_projection.py:377-407 | No task is looked for twice when plans have unique step ids and item keys |
| RuntimeScan.MissingExactly | src/metaproc/runtime_projection.py:347-374 | A `scope-state-missing` gap is reported exactly for the declared child scopes of accepted scopes that have no state directory |
| RuntimeScan.AllChildKeysExact | src/metaproc/runtime_projection.py:347-374 | The child scopes looked for are those of composite steps: the step itself, or one for each item of a mapped step |
| RuntimeScan.MissingScopeState | src/metaproc/runtime_projection.py:347-374 | The two loops collect the child keys without state |
| ChildScopeCoverage.NoticedExactly | src/metaproc/runtime_projection.py:347-374 | Walk and projection together, on every directory graph: a declared child scope is accepted or reported missing if and only if, as far as its state directory resolves inside the root, it is walked; it is both if and only if it is walked and its state directory does not resolve inside the root |
| ChildScopeCoverage.NoticedByName | src/metaproc/runtime_projection.py:347-374 | Where the rules give no directory two paths, symlinks included: a declared child scope goes unnoticed if and only if its state directory resolves inside the root, but its own directory does not or the walk skips one of its names (a leading dot, `worker-`, `slot-`) |
| ChildScopeCoverage.KeyExactly | src/metaproc/paths.py:29-31 | Of the item keys that are safe to use in plans, exactly those that the walk does not skip, under steps that it does not skip, are noticed in every tree |
| ChildScopeCoverage.ChildAccepted | src/metaproc/paths.py:230-269 | On every directory graph a declared child scope with a plan is accepted if and only if it is walked |
| ChildScopeCoverage.ChildWalked | src/metaproc/paths.py:257-269 | Where the rules give no directory two paths: a child path of a walked scope is walked if and only if it leads, through symlinks or not, to a directory inside the root with state, by names that the walk does not skip |
| ChildScopeCoverage.ChildReached | src/metaproc/paths.py:257-269 | On every directory graph the directory of such a child is walked, if under another path |
| ChildScopeCoverage.SegmentsAreChildren | src/metaproc/runtime_projection.py:302-374 | The acceptance of scopes and the report of missing ones have the same child scopes: a legal segment of a plan is the path of exactly such a child |
| PathRebasing.RebaseKeepsRelative | src/metaproc/runtime_projection.py:577-610 | A recorded path that does not lead up and out keeps its relative path under the new root, or is absolute outside the original root and rejected |
| PathRebasing.RelativeRoot | src/metaproc/runtime_projection.py:577-610 | With a relative original root, absolute paths are external, and of others the part behind that root is kept, or the whole |
| PathRebasing.RebaseIdentity | src/metaproc/runtime_projection.py:577-610 | Rebasing onto the same root is the identity on normalised contained paths |
| PathRebasing.LeadingUp | src/metaproc/runtime_projection.py:594-610 | A path that leads up is inside the root of a run in the root directory if and only if its first plain part is that root's name |
| PathRebasing.ComposesExactly | src/metaproc/runtime_projection.py:594-610 | For every recorded path: rebasing from A to B and on to C is rebasing from A to C for all roots if and only if the path does not lead up and out of where it starts |
| OutputProjection.ProjectOutputs | src/metaproc/runtime_projection.py:507-574 | Each recorded output lands in exactly one of accepted and unaccepted, with multiplicity; an unaccepted one carries the reason of the first failing check, so the fallback reason is never used; it raises exactly on an empty recorded path |
| OutputProjection.AcceptedExactly | src/metaproc/runtime_projection.py:507-574 | An output is accepted if and only if state, validation, attempt, step hash, declaration, containment and availability all hold |
| OutputProjection.AcceptedInside | src/metaproc/runtime_projection.py:613-639 | With the file system in place of parameters, whatever its symlinks: each accepted output is at a path that resolves inside the current root, and exactly the recorded outputs of a sound task that are declared and land there, in their stored form, are accepted |
| OutputProjection.JudgeOutput | src/metaproc/runtime_projection.py:519-572 | An output without a reason is sound and available where it is said to be; a reason is the first check that fails |
| OutputProjection.ScanTasks | src/metaproc/runtime_projection.py:105-172 | The task loop of one scope distributes the keys over tasks and gaps, or raises exactly if some task's records contradict one another |
| OutputProjection.DeclaredOnce | src/metaproc/runtime_projection.py:377-407 | A plan with unique ids and keys declares no task twice |
| OutputProjection.DeclaredTasksExact | src/metaproc/runtime_projection.py:377-407 | A plan declares one task for each step that is neither mapped nor composite, one for each item of a mapped step, and no others |
| CompressProtocol.NothingLost | src/metaproc/commands/gzip_text.py:252-352 | In every reachable state, with a fault at any step, any encoder and a producer writing at any time before the re-stat: the producer's latest content is in the source, or the published file decodes to exactly it; after the publish and before the delete both hold |
| CompressProtocol.Completes | src/metaproc/commands/gzip_text.py:252-359 | Completion, for contents of every length and any chunk size: without faults and producer writes and with a faithful encoder no run fails or goes on for ever, each can be carried on to its end, and then the encoding is published, no staging file is left and the source is gone exactly if it was not to be kept |
| CompressProtocol.NeverStuck | src/metaproc/commands/gzip_text.py:252-352 | After any faults and writes of the producer a run can go on until the call has ended |
| CompressProtocol.FaultsStrike | src/metaproc/commands/gzip_text.py:252-352 | Every step that a run can take can fail before its effect and behind it |
| CompressProtocol.SafeExactly | src/metaproc/commands/gzip_text.py:329-352 | Nothing is lost on any run if and only if the producer never writes after the re-stat or the call keeps the source, for contents of any length and every encoder that is faithful on them |
| CompressProtocol.AbortLeavesFiles | src/metaproc/commands/gzip_text.py:252-352 | A call that ends before it publishes leaves source and destination |
| CompressProtocol.RunKeeps | src/metaproc/commands/gzip_text.py:252-352 | The protocol invariant holds in every state of every run |
| CompressProtocol.StepKeeps | src/metaproc/commands/gzip_text.py:252-352 | Every step of the call, every fault and every write of the producer keeps the invariant |
| CompressProtocol.RestatKeeps | src/metaproc/commands/gzip_text.py:329-335 | A source that passes the re-stat is what has been hashed and verified |
| CompressProtocol.CopyKeeps | src/metaproc/commands/gzip_text.py:287-299 | While the source is unchanged, what has been hashed is a prefix of it |
| LogFollow.FollowDelivers | src/metaproc/commands/gcp.py:1591-1644 | Every entry with an insert id that becomes visible within 10 s and is not older than the first window is printed at least once, and two prints of one id are separated by at least 2000 prints of pairwise different other ids |
| LogFollow.DeliveryBound | src/metaproc/commands/gcp.py:1609-1621 | Entries that lag by a given time are delivered in every follow if and only if the lag is at most 10 s |
| LogFollow.HandleKeeps | src/metaproc/commands/gcp.py:1629-1640 | Each entry keeps the cache exact: the deque holds the most recently printed ids without repetition, at most 2000, and the lookup set mirrors it |
| LogFollow.WindowCatches | src/metaproc/commands/gcp.py:1613-1628 | The first query that can see such an entry has it in its window |
| LogFollow.Follower.PrintNew | src/metaproc/commands/gcp.py:1629-1640 | The loop over one answer prints and remembers as the specification does |
| LogFollow.FollowPolls | src/metaproc/commands/gcp.py:1611-1642 | The follow loop asks for the specified windows and prints the specified entries |
| LiveFollow.DrainOnEnd | src/metaproc/commands/gcp.py:1430-1573 | Drain on stop: a job dropped because Batch ended it has a cursor equal to the final line count, and every line past its first cursor has been shown or reported missing |
| LiveFollow.CursorAccounts | src/metaproc/cloud/gcp/gcp_run_live.py:164-175 | At every point the cursor is the first cursor plus what was shown and reported missing, and never passes the published count |
| LiveFollow.ReadOrderExact | src/metaproc/commands/gcp.py:1430-1452 | A job dropped because Batch ended it has been read to its last line, in every history, if and only if the Batch state is not read after the view |
| LiveFollow.UnknownExactly | src/metaproc/commands/gcp.py:1447-1450 | Failed Batch reads, which the docstring says stop the follow after ten: a job can be followed through exactly up to eighteen consecutive ones |
| LiveFollow.UnknownCounted | src/metaproc/commands/gcp.py:1521-1562 | A job followed through ten or more failed Batch reads has had no readable view since the tenth |
| LiveFollow.FailuresStop | src/metaproc/commands/gcp.py:1527-1537 | No job is followed through ten consecutive failed view reads |
| LiveFollow.FailuresCounted | src/metaproc/commands/gcp.py:1527-1537 | The failure counter is at least the number of trailing failed reads, and below the limit while the job is followed |
| LiveFollow.PollExactly | src/metaproc/commands/gcp.py:1521-1562 | One poll: a recorded exit ends the follow whatever Batch says, the end of a job only without one, a tenth failure in a row stops it, and each new line is shown or, beyond the tail, reported missing |
| LiveFollow.LiveFollow.PollOne | src/metaproc/commands/gcp.py:1521-1562 | A poll changes the counters of its job only, to what the specification says, and clears the flag exactly when Batch ended without an exit |
| LiveFollow.LiveFollow.Round | src/metaproc/commands/gcp.py:1515-1563 | A round polls each active job from its own counters, keeps exactly those that go on, in order, and stops with an error if and only if some poll does |
| IdLineage.LineageKept | src/metaproc/ids.py:353-380 | Over any chain of derivations from any of the four parent shapes every descendant keeps the delimiter and the normalised timestamp, and the chain succeeds if and only if each step's own arguments fit |
| IdLineage.TimestampedChild | src/metaproc/ids.py:353-380 | A derived child is a well-formed timestamped ID in the shape of its delimiter whose random part spells the digest modulo the namespace |
| IdLineage.StepExact | src/metaproc/ids.py:361-373 | One derivation succeeds if and only if prefix, key and length fit the parent's delimiter |
| IdLineage.SameChild | src/metaproc/ids.py:374-380 | Two derived IDs are equal if and only if prefix, delimiter, timestamp and width are and the digests agree modulo the namespace |
| IdLineage.IdentityInjective | src/metaproc/ids.py:374-374 | Parent and key can be read back from the digested text |
| IdLineage.WidestNeverMeets | src/metaproc/ids.py:67-68 | At the widest length different parents or keys give one ID only if the digest itself collides on their texts |
| IdLineage.DigestWidths | src/metaproc/ids.py:67-68 | Fifty base-36 characters hold every 256-bit digest, and forty-nine do not |
| IdLineage.FamilyClosed | src/metaproc/ids.py:325-350 | At the default length the hyphen, underscore-compact and underscore-base32 families are each closed under any chain of children, which always succeeds |
| IdLineage.ChildShape | src/metaproc/ids.py:325-350 | Every child keeps the delimiter and spells its digest in its family's payload; its family is its parent's if and only if the length is the default or the delimiter a hyphen; it is never timestamped |
| IdLineage.FamilyExactly | src/metaproc/ids.py:273-280 | The underscore IDs with a compact serialisation carry fourteen small letters and digits, or the historical timestamped payload |
| IdLineage.SamePlainChild | src/metaproc/ids.py:325-350 | Two children are the same ID if and only if prefix and delimiter are and the payloads are: of compact parents, the same length and digests that agree modulo the namespace; of base-32 parents, digests that agree in their first twenty bytes; of one of each, only at length 32 |
| IdLineage.WidestPlainNeverMeets | src/metaproc/ids.py:67-68 | At the widest length different parents or ordinals give one child only if the digest itself collides on their texts |
| IdLineage.LegacyShape | src/metaproc/ids.py:346-350 | The base-32 payload (section 6 of RFC 4648) has 32 characters and stands for the first twenty bytes of the digest |
| TypedIds.ParseExact | src/metaproc/ids.py:107-116 | A text parses to an ID if and only if the ID is well formed and renders to the text: the decomposition is unique and loses nothing |
| TypedIds.PartsExact | src/metaproc/ids.py:262-270 | A payload has given parts if and only if it is their compact or historical spelling |
| TypedIds.ShapedExact | src/metaproc/ids.py:252-259 | Splitting at the last separator finds the only match of the pattern |
| Numerals.EncodeBase36 | src/metaproc/ids.py:235-240 | The digits stand for the value, in the alphabet, at least as wide as asked, and exactly so if and only if the value fits |
| Numerals.Bijection | src/metaproc/ids.py:235-240 | Texts of one width and the values below the namespace size correspond one to one |
| Numerals.EncodeWidth | src/metaproc/ids.py:235-240 | The encoding has the asked width exactly for values that fit |
| Numerals.EncodeValue | src/metaproc/ids.py:235-240 | Decoding an encoding gives the value |
| Numerals.ValueInjective | src/metaproc/ids.py:235-240 | Two texts of one width for one number are the same |
| HandlerCheckVerdict.LayoutExact | src/metaproc/commands/check_handlers.py:40-118 | For every directory layout: the command succeeds exactly if every reachable spec is valid, all its code handlers resolve and all its `uses:` targets exist, from every start and whatever specs and handlers say, if and only if no spec file has paths in two directories |
| HandlerCheckVerdict.CheckExact | src/metaproc/commands/check_handlers.py:66-112 | On one spec graph, cycles and symlinks included, it is enough that no reachable spec file is read differently from two of its paths |
| HandlerCheckVerdict.PassesExactly | src/metaproc/commands/check_handlers.py:40-118 | On every graph: success means exactly that every spec that was read is sound and nothing raised |
| HandlerCheckVerdict.FailureIsReal | src/metaproc/commands/check_handlers.py:40-118 | On every graph: a failing exit implies a reachable unsound spec |
| HandlerCheckVerdict.CheckReports | src/metaproc/commands/check_handlers.py:51-112 | Each spec file is read once, only reachable ones are, each fault of theirs is reported exactly once and each code handler counted once |
| HandlerCheckVerdict.ReportsExactly | src/metaproc/commands/check_handlers.py:51-112 | In terms of the texts and the file system alone: a fault is reported if and only if it is what is wrong with a spec that was read, and every file used by one has been read |
| HandlerCheckVerdict.LinkedSpecMissed | src/metaproc/commands/check_handlers.py:53-56 | Counterexample: with a symlinked spec the command succeeds although a reachable path has a broken handler |
| HandlerCheckExact.VisitAccounts | src/metaproc/commands/check_handlers.py:51-112 | A visit adds to the errors exactly the faults of the specs it reads |
| HandlerCheckExact.VisitOnce | src/metaproc/commands/check_handlers.py:53-56 | The visited specs are distinct as files and are the global set |
| HandlerCheckExact.VisitReached | src/metaproc/commands/check_handlers.py:51-112 | A visit reads only specs reachable from where it starts |
| HandlerCheckExact.VisitDone | src/metaproc/commands/check_handlers.py:92-112 | When no exception ends a visit, all specs used by those it read have been seen |
| HandlerCheckExact.UseOfExact | src/metaproc/commands/check_handlers.py:92-112 | What `uses:` leads to: nothing if empty, a missing dependency if it names one that is not declared, and otherwise the file it names, found or missing |
| HandlerCheckExact.FaultsExact | src/metaproc/commands/check_handlers.py:66-112 | The faults found in one spec are exactly the handlers that do not resolve, the dependencies not declared and the files not found that its text asks for |
| HandlerCheck.Walker.Walk | src/metaproc/commands/check_handlers.py:51-112 | The recursive walk over the shared set, errors and counter computes the specified state, and terminates on cycles |
| HandlerCheck.Walker.WalkSteps | src/metaproc/commands/check_handlers.py:69-112 | The loop over the steps of one spec |
| VersionOrder.AtLeastExactly | devtools/check_supply_chain.py:112-143 | For dotted numeric versions `>=` of one implementation is the negation of `_below_minimum` of the other |
| VersionOrder.CompareExact | devtools/check_supply_chain.py:130-132 | Padding to any common width compares the releases as endless sequences that end in zeros |
| VersionOrder.TotalPreorder | devtools/check_supply_chain.py:130-140 | The comparison is a total preorder whose classes are the releases equal up to trailing zeros |
| VersionOrder.SameReading | src/metaproc/adapters/gemini_cli.py:64-71 | Both implementations read a dotted number alike |
| VersionReaders.AgreeExactly | src/metaproc/adapters/gemini_cli.py:74-88 | For every text as a version: `>=` of one implementation is the negation of `_below_minimum` of the other for all dotted minima if and only if the second reads something and the two readings differ in trailing zeros at most |
| VersionReaders.AgreeOnText | src/metaproc/adapters/gemini_cli.py:64-71 | They agree about a text if and only if its first piece has a digit and after the dotted number at its front no digits follow but those that change nothing: none in the piece that is no number, or only zeros |
| VersionReaders.OperatorExact | devtools/check_supply_chain.py:124-140 | Each of the six operators, with any space behind it: a dotted number meets it if and only if the two sequences of components are in that order |
| VersionReaders.BareOperators | devtools/check_supply_chain.py:124-128 | Operators without a version: `>=` and `<=` alone are read as `>` and `<` of the release of zeros, and the others cannot be met |
| VersionReaders.NoOperator | devtools/check_supply_chain.py:124-126 | A clause that starts with none of the operators cannot be met |
| VersionOrder.SameReleaseSameAnswer | devtools/check_supply_chain.py:112-143 | Versions equal up to trailing zeros meet the same specifiers |
| VersionOrder.Conjunction | devtools/check_supply_chain.py:121-143 | A specifier is the conjunction of its clauses, wherever the comma stands |
| VersionOrder.Satisfies | devtools/check_supply_chain.py:112-143 | The clause loop answers whether all clauses are met |
| VersionOrder.VersionTuple | src/metaproc/adapters/gemini_cli.py:64-71 | The loop collects the numbers before the first piece without a digit |
| EnvTemplate.RoundTrip | src/metaproc/cli.py:78-104 | Loading a rendered template into any environment keeps what is there and adds exactly the members that are not optional, with their stripped examples or placeholders |
| EnvTemplate.ExportLine | src/metaproc/cli.py:90-99 | An export line is read as the name and the stripped value |
| EnvLines.LoadExactly | src/metaproc/cli.py:78-104 | After loading, a name that was defined keeps its value, and any other has the value of the first line that assigns to it |
| EnvLines.LineExactly | src/metaproc/cli.py:91-98 | A line assigns if it is no comment and has a name before its first `=`, with or without `export` and space in front; both sides count without surrounding space |
| EnvLines.SplitExactly | src/metaproc/cli.py:90-90 | A text is split into the lines it is put together from, with every kind of line end |
| EnvLines.NearestExactly | src/metaproc/cli.py:86-103 | The file that counts is the first one from the working directory upward |
| EnvTemplate.TrailingBlank | src/metaproc/commands/env.py:70-70 | White space stripped from the end of a text defines nothing |
| EnvTemplate.Render | src/metaproc/commands/env.py:47-70 | The member loop prints the header and the entries, joined and stripped |
| EnvTemplate.Process.LoadDotenv | src/metaproc/cli.py:78-104 | The nearest file's lines are loaded in order, and a defined name is never replaced |

## Left out

Write check:
- Expression forms that bind names or run code later (walrus, comprehensions, lambda bodies), `match`, `nonlocal` and
  `global` rebinding, starred targets, and calls inside assignment targets.
- Modes that are not literals, and suppression comments: the check does not judge the first, and the second is text
  matching over the findings.
- `.name` of a staged value is taken to denote the same place, as it does for temporary files; on a plain `Path` it is
  the last component only, which the model does not capture. `io` and `builtins` are taken for the modules.
- Unpacking the result of a staging binder gives private values for all names; what a callee outside the program
  writes is not part of a run; a handler's `as` name is a rebinding at the start of its body; the part of a path that a
  non-literal operand names may be anything.
- ScannerSoundness.SilenceMeansStaged: for tracked programs only, because `ScannerGaps` and `CallExactness` show it false
  of others; what is asked of loops and `try` is that the reference agrees, which `StatementExact` shows to be needed.
- ScannerExact.ProgramExact: exact for programs without an `.open` whose second argument is a truncating mode and whose
  receiver may be other than a path, because `OpenUndecided` shows it false of others, and `OpensTogether` that no
  reference with facts about single names decides them; sound for all. `n` is any number
  above the lengths of the literals.
- ScannerPrecision.NoFalseAlarm: for clear and direct programs, because the scanner by its rules distrusts a name that
  the body of a `with` or `for` has staged (`WithAlarm`), or that only a branch that ends has bound; `ExitChange` says
  what it keeps in all programs, and `StatementExact` decides every statement.
- ScannerLimits.ForExact: stated on findings and exit sets for bodies of assignments, expressions and branches, as are
  `WhileExact`, `TryExact`, `WithExact` and `DefExact`; for other bodies the exact condition is that of `StatementExact`.

Gemini settings:
- The order of the override report and its dotted spelling; reading and copying the template directory, and the refusal
  about Login with Google, which only refuses more launches.
- Gemini's own merge is modelled as the adapter's comments describe it; gemini-cli is not part of this model.
- A settings file is absent, unreadable or a JSON value; the JSON parser and text decoding are not modelled.

Run tree and projection:
- A tree does not change during a walk, and the generator is run to its end.
- The order of the reported lists: tasks and gaps are sorted at the end of the scan, and the model states their contents
  as multisets.
- Identity checks of status, attempt and result records, containment checks of record files and reading plans from disk
  appear as parameters that may end the scan.
- RuntimeScan.Conservation: for plans that record their item keys; plans from a bundle list what is on disk instead, and
  declare nothing to lose.
- ChildScopeCoverage.ChildWalked: where the rules give no directory two paths, because elsewhere `LinkedExact` shows some
  path unwalked; `ChildReached` is what remains. Directories can be listed, and step ids are plain names.
- Where the stored form of an output file (plain or compressed) is, is a function of the file system;
  `resolve_existing_artifact` is not part of this model, and neither is the rebased path that an unaccepted output
  carries along.
- PathRebasing.ComposesExactly: without symlinks; the special meaning of two leading slashes is not modelled, and a path
  that cannot be resolved counts as one outside the root.

Compression:
- Digests are injective, every write of the producer advances the modification time, and the producer does not delete
  the source. The choice of candidates, thresholds, counters and savings estimates in `gzip_text.py` are left out as
  easy members.

Following logs:
- A log query answers as one snapshot; paging, filters and formatting are not modelled. Times are real numbers.
- The text of console tails, the first listing before a follow and the messages about partial lines are not modelled;
  an unsupported snapshot version stops the follow.
- Scale-state evolution and the aggregation of controllers in `gcp.py` are left out as easy members.

Typed IDs:
- SHA-256 is a parameter; allocation of random IDs and Unicode encoding of keys are left out. `\d` in the patterns is an
  ASCII digit, which the outer pattern already ensures. `find_typed_partition_component` would add an easy member.

Handler check:
- HandlerCheckVerdict.CheckExact: for graphs on which spec files are read alike from all their reachable paths; the exact
  condition is on the directory layout, in `LayoutExact`.
- File system and modules are functions that satisfy what every file system gives; template expansion of dependency
  paths and the import of handlers are such functions, and recursion is unbounded. Output lines are left out.

Versions and `.env`:
- Digits are ASCII. The supply-chain checks around `_satisfies` and the drift message are left out.
- The text of the template header and the wrapping of descriptions are parameters; a registry has identifiers as names
  and one-line examples. A `.env` file that cannot be read is not modelled.
