# Verification of mix

A Dafny model of the parts of mix where a mistake would be hard to see: the text it generates for
nix, the stream of events it reports, the file changes it makes and takes back, and the arithmetic
of what it shows. `dafny verify dfyconfig.toml` checks the whole project.

## What is modelled

**The nix expressions** (`crates/nixgen`). `Ast` is the data, `Printed` the text as a function of
it, `Reader` the grammar as functions over the rest of the text. `Writer` and `Printer` are the
stateful writers, `Parser` the recursive-descent parser with its position; each of their methods is
proved equal to the function beside it. `RoundTrip` and `NormalForm` relate the two sides. `AttrSet`
is the ordered set of attributes, `Home` the generated home.nix, `Splice`, `Flake` and `FlakeWriter`
the flake with its template, `Installable` the percent-encoded references.

**The events** (`crates/events`, `crates/daemon`). `Tree`, `Outbox` and `Validate` hold the three
state machines as step functions and, beside each, the class that updates its fields in place.
`Laws` is an independent statement of the protocol, about a stream and nothing else, and the proof
that the validator accepts exactly the lawful streams. `Simulation` and `Delivery` connect tree,
outbox and validator over whole runs. `Forest` and `Journal` draw conclusions from an accepted
stream. The duties that the tree leaves to its callers (`Simulation.Duty`) are: the root is a
command; a rollback undoes a finished sibling step; a key not run has a stated reason, which is
`Blocked` exactly when something blocks it; cancellation causes are stated and only cancelled nodes
have one; results fit the node; only the root has an exit code; no key is planned twice. They are
not assumed: the main theorem says that the validator accepts a run that closed its root if and only
if they were done.

**The files** (`crates/fs`, `crates/home`). `FileTree` is a directory tree with owners, modes,
identities and links. `FileActions` gives each action as a function to its result, its undo list and
the states that become visible on the way; class `Files` makes the calls of the source one after the
other and is proved to come to the same. `FileUndo` is about taking actions and runs back, `LeftCopy`
about the one place where something is left over, `Commit` about the resumable removal, `Resolve`
about following paths, `Agent` about the two-party session that carries actions to the agent.

**The numbers** (`crates/nixlog`, `crates/ui`). `NixLog` are the totals over nix activities, checked
against a ledger of all of them; `Counters` is the rounding and padding of what is drawn.

## What the code does not do

Six claims one might make are false of the code. Each has its concrete case and the exact condition
under which it holds.

- Expressions come back from the parser: not with a variable named `true` or `false`, which the
  constructors accept and the parser reads as a boolean (`NormalForm.AVariableNamedTrueIsLost`;
  exactly then: `NormalForm.RoundTrips`).
- The undo of a discard takes back that discard alone: not if the path was pending already
  (`FileUndo.DiscardingTwiceLosesTheFirst`; exactly then: `FileUndo.DiscardUndone`, and for whole runs
  `FileUndo.RunRestores`).
- A run that stopped anywhere can be undone: not between the two renames of a reclaim, where the copy
  is left behind under its hidden name, and even less in a directory that a `create_dir` of the same
  run made, whose removal then fails (`LeftCopy.ADirectoryIsStuck`; exactly then:
  `FileUndo.UndoRestores` for one action, `LeftCopy.StoppedRunRestores` and
  `LeftCopy.HalfReclaimedRun` for runs).
- The one-call lookup gives what the walk gives: not for `/a/../b`
  (`Resolve.AStepUpwardsTellsThemApart`; the exact condition: `Resolve.AgreesExactly`).
- The live sums of the nix log are those of the running activities: not after an activity was started
  again while it ran (`NixLog.AnActivityStartedTwice`; the exact condition: `NixLog.SumsAreExact`, and
  that it stays so: `NixLog.StartedAgainIsNeverSettled`).
- A commit that is stopped and taken up again comes to the same as one that is not: not if a path of
  another user stands before the directory it is in, and the stop comes after it was removed with
  that directory but before the next entry (`Commit.AStopForgetsAPath`; the exact condition:
  `Commit.StopsDoNotMatterExactly`).

## Model

| member | source | states |
|---|---|---|
| `NormalForm.PrintedReads` | crates/nixgen/src/parse.rs:13-71 | For every valid expression: the printed text parses to its end, and gives the normal form of the expression in which a variable named like a boolean has become that boolean; what is read is already normal. |
| `NormalForm.RoundTrips` | crates/nixgen/src/parse.rs:279-288 | Parsing the printed text gives back the expression up to `normalize` if and only if no variable in it is named `true` or `false`. |
| `NormalForm.AVariableNamedTrueIsLost` | crates/nixgen/src/ident.rs:6-8 | `true` is an identifier the constructors accept, and the variable of that name comes back as a boolean: the concrete input on which the round trip fails. |
| `NormalForm.SameTextSameNormalForm` | crates/nixgen/src/parse.rs:23-71 | Two expressions (without such variables) have the same text if and only if they have the same normal form: the text loses nothing but what `normalize` drops. |
| `NormalForm.ShowNormalized` | crates/nixgen/src/print.rs:191-235 | Printing is unchanged by `normalize`, at every depth and before any text: empty and split literals and nested selections print alike. |
| `NormalForm.NormalizeTwice` | crates/nixgen/src/parse.rs:23-53 | `normalize` is idempotent. |
| `NormalForm.EscapedWaits` | crates/nixgen/src/print.rs:192-210 | A literal cut anywhere, between `$` and `{` too, is escaped exactly as the uncut one: that is what the delayed dollar is for. |
| `NormalForm.ShowMerged` | crates/nixgen/src/parse.rs:55-71 | The parts of a string print alike before and after neighbouring literals are joined, whether a dollar is pending or not. |
| `NormalForm.NormalizeKeepsNames` | crates/nixgen/src/parse.rs:23-53 | `normalize` neither brings in nor removes a variable named like a boolean. |
| `NormalForm.ShowBooleans` | crates/nixgen/src/print.rs:282-329 | The text of an expression does not tell a variable named `true` or `false` from the boolean. |
| `RoundTrip.ReadShown` | crates/nixgen/src/parse.rs:122-129 | A printed expression, at any depth and followed by anything that ends an expression, is read whole and as its normal form, and no further. |
| `RoundTrip.ReadShownParts` | crates/nixgen/src/parse.rs:322-382 | The printed parts of a string, with a dollar pending and text read already, are read as the parts with neighbouring literals joined. |
| `RoundTrip.ReadEscaped` | crates/nixgen/src/parse.rs:331-382 | An escaped literal is read back character by character, its last dollar included, wherever the rest of the string does not begin with a brace. |
| `RoundTrip.NotAtLambda` | crates/nixgen/src/parse.rs:131-150 | The lookahead never takes anything but a lambda for a lambda: no printed attribute set, list, string, selection or application starts like one. |
| `RoundTrip.FormalsAreSeen` | crates/nixgen/src/parse.rs:131-150 | The lookahead takes every printed lambda for a lambda, with and without formals and dots. |
| `RoundTrip.ReadShownFormals` | crates/nixgen/src/parse.rs:152-178 | Printed formals are read back as the same ordered names and the same ellipsis, none refused as a duplicate. |
| `RoundTrip.ReadShownLambda` | crates/nixgen/src/parse.rs:152-185 | A printed lambda is recognised and read whole. |
| `RoundTrip.ReadShownApplication` | crates/nixgen/src/parse.rs:187-197 | A printed application is read up to the arguments that may follow it; parentheses keep functions and arguments apart. |
| `RoundTrip.ReadShownSpine` | crates/nixgen/src/parse.rs:208-225 | A printed operand and the keys behind it are read as one flat selection. |
| `RoundTrip.ReadShownOperand` | crates/nixgen/src/parse.rs:208-225 | What is printed as an operand, parentheses and all, is read by one selection. |
| `RoundTrip.ReadShownSimple` | crates/nixgen/src/parse.rs:227-290 | Strings, lists, attribute sets, booleans, variables and paths are read up to their last character. |
| `RoundTrip.ReadShownItems` | crates/nixgen/src/parse.rs:231-242 | Printed list items are read back one by one and in order. |
| `RoundTrip.ReadShownEntries` | crates/nixgen/src/parse.rs:243-260 | Printed entries are read back in order, none refused as already defined. |
| `RoundTrip.ReadShownKey` | crates/nixgen/src/parse.rs:292-309 | A printed key, bare or quoted, reserved words included, is read back as the same text. |
| `RoundTrip.StartsOperand` | crates/nixgen/src/parse.rs:199-206 | Every printed expression starts with a character at which an operand starts. |
| `Printed.ShowAppends` | crates/nixgen/src/print.rs:282-329 | The printer never looks at what follows: the text of an expression before any rest is its text with the rest behind it. |
| `Parser.Parse` | crates/nixgen/src/parse.rs:13-21 | `parse` succeeds exactly where the grammar functions read the whole text, with the same expression, and otherwise fails with the same message at the same position. |
| `Parser.NormalizeParts` | crates/nixgen/src/parse.rs:55-71 | The loop over the output vector joins literals and drops empty ones exactly as the recursive normal form does. |
| `Parser.Parser.Expression` | crates/nixgen/src/parse.rs:122-129 | Leaves the position and returns the result or failure that `ReadExpr` gives for the rest of the text. |
| `Parser.Parser.LooksLikeLambda` | crates/nixgen/src/parse.rs:131-150 | The lookahead over indices agrees with the one over the rest of the text and moves nothing. |
| `Parser.Parser.LambdaExpression` | crates/nixgen/src/parse.rs:152-185 | Agrees with `ReadLambda` on result, failure and position. |
| `Parser.Parser.Formals` | crates/nixgen/src/parse.rs:152-177 | The loop over formals agrees with `ReadFormals`: order, duplicates, reserved words, commas that may be left out. |
| `Parser.Parser.Application` | crates/nixgen/src/parse.rs:187-197 | The loop over arguments agrees with `ReadApplication`. |
| `Parser.Parser.Selection` | crates/nixgen/src/parse.rs:208-225 | Agrees with `ReadSelection`. |
| `Parser.Parser.Keys` | crates/nixgen/src/parse.rs:208-219 | The loop over keys agrees with `ReadKeys`; `..` and `./` end it. |
| `Parser.Parser.Simple` | crates/nixgen/src/parse.rs:227-290 | The branches on the first character agree with `ReadSimple`. |
| `Parser.Parser.Items` | crates/nixgen/src/parse.rs:231-242 | The loop over items agrees with `ReadItems`. |
| `Parser.Parser.Entries` | crates/nixgen/src/parse.rs:243-260 | The loop inserting entries into the ordered set agrees with `ReadEntries`, a key defined twice refused. |
| `Parser.Parser.Parenthesized` | crates/nixgen/src/parse.rs:261-266 | Agrees with `ReadParenthesized`. |
| `Parser.Parser.RelativePath` | crates/nixgen/src/parse.rs:267-278 | Agrees with `ReadPath`, a path the printer cannot write refused. |
| `Parser.Parser.Variable` | crates/nixgen/src/parse.rs:279-288 | Agrees with `ReadVariable`: booleans, variables, reserved words. |
| `Parser.Parser.KeyName` | crates/nixgen/src/parse.rs:292-309 | Agrees with `ReadKey`: a quoted key must be plain text. |
| `Parser.Parser.StringLiteral` | crates/nixgen/src/parse.rs:322-382 | The loop over `$`, `$$`, `$\`, `${`, escapes and line ends agrees with `ReadString`. |
| `Parser.Parser.SkipBlanks` | crates/nixgen/src/parse.rs:98-110 | Skips exactly the blanks and comments that `SkipTrivia` drops. |
| `Printer.PrintExpr` | crates/nixgen/src/print.rs:276-280 | The stateful writer prints exactly the text that the reader theorems are about. |
| `Printer.WriteExpr` | crates/nixgen/src/print.rs:282-329 | Appends the text of the expression at the current depth, and leaves the depth as it was. |
| `Printer.WriteOperand` | crates/nixgen/src/print.rs:344-350 | Appends the text of an operand, in parentheses where one is needed. |
| `Printer.WriteString` | crates/nixgen/src/print.rs:52-63 | The parts written through the string writer, with its pending dollar, give the text of the string. |
| `Printer.WriteList` | crates/nixgen/src/print.rs:127-140 | Items written one by one give the text of the list, an empty one on one line. |
| `Printer.WriteAttrs` | crates/nixgen/src/print.rs:113-125 | Entries written one by one give the text of the set; the assertion that keys increase holds at every entry. |
| `Writer.Writer.Escape` | crates/nixgen/src/print.rs:247-263 | The index loop that copies runs between escapes writes the recursively defined escaped text. |
| `Writer.Writer.Key` | crates/nixgen/src/print.rs:237-245 | A key is written bare when it is an identifier and quoted otherwise. |
| `Writer.Writer.LambdaHead` | crates/nixgen/src/print.rs:81-111 | Writes the formals in their increasing order, separators and dots included. |
| `Writer.StrWriter.Lit` | crates/nixgen/src/print.rs:192-210 | Writes a literal behind a dollar that may be pending and keeps back its own last dollar: the field holds exactly whether one is owed. |
| `Writer.StrWriter.Verbatim` | crates/nixgen/src/print.rs:212-224 | Writes text that needs no escape with the effect of `lit` on text and pending dollar alike. |
| `Writer.StrWriter.InterpStart` | crates/nixgen/src/print.rs:226-235 | Opens an interpolation, a pending dollar escaped before it. |
| `Writer.StrWriter.End` | crates/nixgen/src/print.rs:52-63 | Closes the string, a pending dollar written first. |
| `Writer.AttrsWriter.EntryStart` | crates/nixgen/src/print.rs:147-170 | Needs a key above the last one written; opens the set at the first entry only. |
| `Writer.VerbatimIsEscaped` | crates/nixgen/src/ast.rs:115-124 | Verbatim text is the same escaped or not. |
| `Writer.VerbatimIsLit` | crates/nixgen/src/print.rs:212-224 | For verbatim text the shortcut writes what `lit` writes, whatever is pending. |
| `Writer.IndentedIsSpaces` | crates/nixgen/src/print.rs:265-274 | The indentation cut from a constant of blanks is the one written blank by blank. |
| `Ident.IsIdentifierBytes` | crates/nixgen/src/ident.rs:35-52 | The byte loop accepts exactly the identifiers that are not reserved words. |
| `Ident.IsFileNameBytes` | crates/nixgen/src/ident.rs:54-68 | The byte loop accepts exactly the file names with inner dots only. |
| `Ident.IsReserved` | crates/nixgen/src/ident.rs:24-33 | The loop over the table finds exactly the reserved words. |
| `AttrSet.FromEntries` | crates/nixgen/src/ast.rs:227-241 | Stable sort and dedup by handing values over gives what inserting the entries one by one gives, keys strictly increasing. |
| `AttrSet.InsertAllMeans` | crates/nixgen/src/ast.rs:193-201 | Inserting entries one by one keeps the keys strictly increasing and means: each key has its last value. |
| `AttrSet.InsertKeeps` | crates/nixgen/src/ast.rs:193-201 | One insertion keeps the order and changes what only its own key means. |
| `AttrSet.LookupDetermines` | crates/nixgen/src/ast.rs:185-201 | A strictly increasing list is determined by what its keys mean. |
| `AttrSet.SortByKey` | crates/nixgen/src/ast.rs:227-232 | The sort orders by key and keeps the order of entries with the same key. |
| `AttrSet.AttrSet.Search` | crates/nixgen/src/ast.rs:193-201 | The binary search finds the key, or the only place where it may go. |
| `AttrSet.AttrSet.Insert` | crates/nixgen/src/ast.rs:193-201 | Inserts or replaces in place, keeps the order, and hands back the value the key had before. |
| `Home.RenderedReads` | crates/nixgen/src/home.rs:139-182 | The whole of home.nix, comment header and line end included, parses to exactly the lambda over `pkgs` that holds the user name, the home directory, the state version, the selections in order and the copy commands, whatever characters the first two hold. |
| `Home.RenderingTellsModulesApart` | crates/nixgen/src/home.rs:88-94 | Two different modules never render to the same text. |
| `Home.Render` | crates/nixgen/src/home.rs:139-145 | The writer calls of `render` produce that text, which reads back as that lambda. |
| `Home.Write` | crates/nixgen/src/home.rs:147-182 | Writes the lambda, keys in increasing order, through the stateful writer. |
| `Home.WriteCommands` | crates/nixgen/src/home.rs:152-163 | The copy commands written in pieces, with the separator only between them, are one string of literals and paths. |
| `Home.WritePackages` | crates/nixgen/src/home.rs:165-171 | The selections are written in the order given. |
| `Home.CommandsMerge` | crates/nixgen/src/home.rs:152-163 | The commands written in pieces read back with one literal between two interpolations. |
| `Home.NewHome` | crates/nixgen/src/home.rs:108-120 | Succeeds exactly for a user name that is not blank and an absolute home directory, neither with a null byte; the user name is refused first. |
| `Home.WithPackages` | crates/nixgen/src/home.rs:122-132 | Succeeds exactly when every name is an identifier, and otherwise hands back the first that is not. |
| `Flake.SplicedIsWritten` | crates/nixgen/src/flake.rs:116-134 | The template holds every hole exactly once, in the order revision, revision, user, system; filled with any user, system and revisions it is the flake written in full with those values. |
| `Flake.FlakeReads` | crates/nixgen/src/flake_write.rs:23-100 | The whole of flake.nix parses to the set that holds the description, both inputs with their urls, and the outputs for that user and system. |
| `Flake.FlakeShown` | crates/nixgen/src/flake_write.rs:23-100 | The text of the flake from hole to hole: what stands between the holes does not depend on what is in them. |
| `Flake.ChunksArePlain` | crates/nixgen/build.rs:52-83 | No marker begins anywhere between the holes. |
| `FlakeWriter.WriteFlake` | crates/nixgen/src/flake_write.rs:23-100 | The nested writer calls write that flake at any depth. |
| `FlakeWriter.BuildAndRender` | crates/nixgen/src/flake.rs:116-134 | Template written, cut by the build, filled by `render`: the file is the flake written in full and reads back as it. |
| `Splice.SplitText` | crates/nixgen/build.rs:66-76 | The loop that cuts at the leftmost marker computes the recursive split. |
| `Splice.FindLeftmost` | crates/nixgen/build.rs:66-71 | The minimum over the markers found is the leftmost marker, the one listed first among equals. |
| `Splice.LeftmostComesFirst` | crates/nixgen/build.rs:66-71 | The chosen marker is not behind any other, and before every one listed earlier. |
| `Splice.SplitFillsBack` | crates/nixgen/build.rs:66-76 | Cutting loses nothing: with the markers put back the text is what it was, for every text and all markers. |
| `Splice.SplitRecovers` | crates/nixgen/build.rs:66-76 | A text written with markers in its holes is cut into the very chunks and holes it was written with, if and only if no marker stands in the text but in the holes, one that straddles a hole included; no marker begins another. |
| `Splice.SplicingEqualsWriting` | crates/nixgen/src/flake.rs:116-134 | Splitting once and filling in any texts equals writing with those texts. |
| `Splice.Render` | crates/nixgen/src/flake.rs:116-134 | The loop over chunks and holes computes the filled text. |
| `Installable.RenderingTellsInstallablesApart` | crates/nixgen/src/installable.rs:185-217 | Two installables render to the same text if and only if they are the same, by path bytes, git position, signer and segments. |
| `Installable.ReadsRendered` | crates/nixgen/src/installable.rs:185-193 | A reader that cuts at the first `#`, decodes, and splits the segments undoes rendering. |
| `Installable.DecodesEncoded` | crates/nixgen/src/installable.rs:207-217 | Percent-decoding undoes percent-encoding for all bytes (section 2.1 of RFC 3986). |
| `Installable.EncodedIsPlain` | crates/nixgen/src/installable.rs:199-217 | Encoded text holds no character but the unreserved ones (section 2.3 of RFC 3986), `%`, and in a path the slash. |
| `Installable.NoHashInFlake` | crates/nixgen/src/installable.rs:91-118 | The first `#` always separates the flake from the attribute path. |
| `Installable.ReadsSegments` | crates/nixgen/src/installable.rs:157-172 | Quoted and bare segments split back uniquely. |
| `Installable.ReadsQuery` | crates/nixgen/src/installable.rs:91-118 | The query reads back as the signer and the position it was written from. |
| `Installable.Render` | crates/nixgen/src/installable.rs:185-193 | The pushes into the output string build the rendered text, which reads back as the installable. |
| `Installable.WriteFlake` | crates/nixgen/src/installable.rs:91-118 | Pushes the path or the git url with its query onto the output. |
| `Installable.WriteAttrPath` | crates/nixgen/src/installable.rs:157-172 | Pushes the encoded, dotted segments onto the output. |
| `Installable.PercentEncode` | crates/nixgen/src/installable.rs:207-217 | The loop over bytes pushes the encoded text. |
| `Installable.NewAttrPath` | crates/nixgen/src/installable.rs:133-155 | Accepts exactly non-empty paths of segments that are not empty and hold no quote; otherwise names the first fault. |
| `Delivery.RunsAreValid` | crates/events/src/tree.rs:197-404 | Take any run of tree operations, `abandon` and the drop included, with every single event pushed on its own and the outbox popped at any moments in between: once everything is delivered the validator accepts it if and only if the callers did their duties and the root is closed. |
| `Delivery.EveryRunCanEnd` | crates/events/src/tree.rs:398-404 | Wherever a run is, the drop of the tree, the pushes that are left and enough pops close the root and deliver everything. |
| `Delivery.LastGaugeBeforeFinish` | crates/events/src/tree.rs:249-258 | In every run, whatever the callers neglect and wherever pops fall between the pushes, the last value that a node reported of a gauge arrives, as the last of its slot, before the finish of the node. |
| `Delivery.NoGaugeAfterFinish` | crates/events/src/tree.rs:249-303 | In no run a gauge of a node is pushed behind its finish. |
| `Delivery.OthersArriveInOrder` | crates/events/src/outbox.rs:68-116 | Every event that is not a gauge is delivered exactly once, in the order of the pushes. |
| `Delivery.PushAllThins` | crates/events/src/outbox.rs:68-80 | Whatever is pushed, what was delivered and what waits leaves out only gauges that later ones of the same slot replace. |
| `Delivery.LastGaugeArrives` | crates/events/src/outbox.rs:68-116 | What arrives before an event other than a gauge ends, slot by slot, with the gauge last pushed before it. |
| `Delivery.ThinningKeepsTheLaw` | crates/events/src/validate.rs:184-391 | Leaving out replaced gauges changes nothing for the law of the other events. |
| `Delivery.PushedIsLawful` | crates/events/src/tree.rs:197-404 | What a run emits is lawful exactly for a dutiful run, and then the root has finished exactly when it is closed. |
| `Delivery.NumberedIsLawful` | crates/events/src/outbox.rs:96-116 | Numbering from one on and one request meet the first two rules of the validator. |
| `Simulation.OpStep` | crates/events/src/tree.rs:222-404 | One operation keeps to the protocol exactly when it is refused or its caller did its duty, and then the tree goes on matching what it emitted. |
| `Simulation.RefusedDoesNothing` | crates/events/src/tree.rs:222-320 | An operation that returns a misuse emits nothing and changes nothing. |
| `Simulation.EffectKeepsValid` | crates/events/src/tree.rs:222-404 | The invariant of the table (counts, parents with lower ids) holds after every operation, dutiful or not. |
| `Simulation.AbandonCloses` | crates/events/src/tree.rs:305-323 | `abandon` closes exactly the open nodes of the subtree. |
| `Simulation.DropClosesAll` | crates/events/src/tree.rs:398-404 | After the drop no node is open. |
| `Simulation.FinishStep` | crates/events/src/tree.rs:270-303 | A finish is lawful exactly when the ending fits the node and no key was planned twice; all unreached keys are reported first. |
| `Simulation.UnreachedStep` | crates/events/src/tree.rs:289-294 | Reporting the keys that were never reached is lawful exactly when no key was planned twice. |
| `Simulation.AbandonStep` | crates/events/src/tree.rs:305-330 | Abandoning emits a lawful stream exactly under its duty, children before parents. |
| `Tree.CountedChildIsOpen` | crates/events/src/tree.rs:270-287 | The `expect` in `finish` cannot fire: a node counts children exactly when one is open. |
| `Tree.AbandonSucceeds` | crates/events/src/tree.rs:305-323 | The `expect` in `abandon` cannot fire: each finish succeeds, and only a node with nothing open below it is refused. |
| `Tree.SubtreeIsClosable` | crates/events/src/tree.rs:305-343 | Highest ids first, each node of a subtree has no open child by the time it is finished. |
| `Tree.Tree.constructor` | crates/events/src/tree.rs:198-208 | Opens the root and emits its start. |
| `Tree.Tree.StartChild` | crates/events/src/tree.rs:222-225 | New state, emitted events and result are those of the step function; refused starts change nothing. |
| `Tree.Tree.NotRunChild` | crates/events/src/tree.rs:227-236 | Claims the key and reports it, or is refused. |
| `Tree.Tree.BlockedChild` | crates/events/src/tree.rs:238-247 | Claims the key and reports what blocks it, or is refused. |
| `Tree.Tree.Report` | crates/events/src/tree.rs:249-258 | Emits a gauge only when it changed, every other progress always. |
| `Tree.Tree.WarnOf` | crates/events/src/tree.rs:260-268 | Emits a warning of an open node. |
| `Tree.Tree.Finish` | crates/events/src/tree.rs:270-303 | Reports the unreached keys in order, emits the finish, closes the node and counts it out at its parent. |
| `Tree.Tree.Descends` | crates/events/src/tree.rs:332-342 | The walk up the parents ends and finds exactly the ancestors. |
| `Tree.Tree.Below` | crates/events/src/tree.rs:305-313 | Collects exactly the open nodes of the subtree, highest id first. |
| `Tree.Tree.AbandonNode` | crates/events/src/tree.rs:305-323 | Finishes the collected nodes one after the other. |
| `Tree.Tree.Close` | crates/events/src/tree.rs:398-404 | What the drop does to tree and outbox. |
| `Laws.AcceptsExactlyTheLawful` | crates/events/src/validate.rs:166-230 | `validate` returns Ok if and only if the stream is lawful: numbered from one, one request, the root command first, every start under a running parent with a new id and a new key, finishes once and after all children with every planned key taken, results that fit, rollbacks of finished sibling steps, and the root finished. |
| `Laws.EventStep` | crates/events/src/validate.rs:232-391 | One event is accepted exactly when it is lawful after what came before, and the records go on saying what happened. |
| `Laws.StartIsLawful` | crates/events/src/validate.rs:232-293 | A start passes the checks exactly when the declarative rule for starts holds. |
| `Laws.FinishIsLawful` | crates/events/src/validate.rs:295-346 | A finish passes the checks exactly when the declarative rule for finishes holds. |
| `Laws.FinishedSiblings` | crates/events/src/validate.rs:232-293 | The record of an undone step tells a finished sibling step from everything else. |
| `Validate.Validator.Push` | crates/events/src/validate.rs:184-216 | The field updates of one envelope are those of the step function, the violation the first that applies. |
| `Validate.Validator.Start` | crates/events/src/validate.rs:232-293 | The field updates and the violation of a start. |
| `Validate.Validator.Finish` | crates/events/src/validate.rs:295-346 | The field updates and the violation of a finish. |
| `Validate.Validator.Report` | crates/events/src/validate.rs:348-383 | The field updates and the violation of a key that did not run. |
| `Validate.Validator.MissingKey` | crates/events/src/validate.rs:295-346 | Finds the first planned key that no child took. |
| `Validate.Validator.End` | crates/events/src/validate.rs:218-230 | Valid exactly when the root finished, otherwise the unfinished nodes in increasing order. |
| `Validate.ValidateStream` | crates/events/src/validate.rs:166-174 | The loop over a stream gives the verdict of the step function run over it. |
| `Outbox.PushRefines` | crates/events/src/outbox.rs:68-80 | Pushing with a tombstone refines the simple queue: the undelivered gauge of the same node and kind is taken out, the new event put last. |
| `Outbox.PopRefines` | crates/events/src/outbox.rs:96-116 | Popping skips tombstones and refines popping the simple queue; the number goes up by one exactly when something is delivered. |
| `Outbox.Outbox.Push` | crates/events/src/outbox.rs:68-80 | The field updates of a push, and what they mean for the waiting events. |
| `Outbox.Outbox.Pop` | crates/events/src/outbox.rs:82-116 | Delivers the first waiting event with the next number and the request, or nothing. |
| `Outbox.Outbox.Drain` | crates/events/src/outbox.rs:87-94 | Delivers all waiting events, numbered one after the other, and leaves none. |
| `Forest.EndedMeansAllFinished` | crates/events/src/validate.rs:295-346 | In a lawful stream whose root finished, every node that ever started has finished. |
| `Forest.EndedMeansAllPlannedTaken` | crates/events/src/validate.rs:295-346 | And every planned key was run or reported. |
| `Forest.AcceptedLeavesNothingOpen` | crates/events/src/validate.rs:218-230 | Both, for every stream that the validator accepts. |
| `Forest.ParentsRun` | crates/events/src/validate.rs:232-293 | Whatever runs, runs under a running parent. |
| `Forest.TakenOnce` | crates/events/src/validate.rs:232-293 | No key of a node is started or reported twice. |
| `Forest.SilentOnceFinished` | crates/events/src/validate.rs:385-391 | A node finishes once, and nothing is reported of it or below it afterwards. |
| `Forest.ParentsStartEarlier` | crates/events/src/validate.rs:232-293 | Every node but the root starts after its parent. |
| `Forest.UndoneStartsEarlier` | crates/events/src/validate.rs:232-293 | A rollback starts after the sibling step that it undoes. |
| `Journal.StepOfMeans` | crates/daemon/src/journal.rs:142-148 | On a lawful stream `step_of` names a step exactly when a line of parents leads to it without another step or rollback between, or to a rollback that undoes it: the nearest enclosing step, inside a rollback the step being undone. |
| `Journal.UndoingMeans` | crates/daemon/src/journal.rs:137-140 | `undoing` holds exactly inside a rollback, however deep. |
| `Journal.LawfulIsRanked` | crates/daemon/src/journal.rs:132-148 | On a lawful stream the recursions end: parents and undone steps started earlier. |
| `Journal.AuditMeans` | crates/daemon/src/journal.rs:83-109 | The entry of a finished step names that step; the entry of a finished action names the step it belongs to and whether it undoes one; a dry run records neither. |
| `Journal.Steps.Entries` | crates/daemon/src/journal.rs:62-117 | The updates of the map and the entries of one event are those of the specification over the stream so far. |
| `FileUndo.UndoRestores` | crates/fs/src/lib.rs:580-655 | From a state after a visible change of an action, the undo list it prepared, front to back, brings back the visible tree with the identity of what was replaced, and the pending list, if and only if the path was not discarded before and the action is no reclaim between its two renames. |
| `FileUndo.HalfReclaimUndone` | crates/fs/src/lib.rs:1076-1133 | Between the two renames of a reclaim its own undo list brings back the tree and the pending list, but for the copy, which stays under its hidden sibling name. |
| `FileUndo.DiscardUndone` | crates/fs/src/lib.rs:885-892 | The undo of a discard brings back the pending list if and only if the path was not pending already. |
| `FileUndo.DiscardingTwiceLosesTheFirst` | crates/fs/src/lib.rs:885-892 | The concrete case: a path discarded twice is not pending at all after one undo. |
| `FileUndo.RunRestores` | crates/fs/src/lib.rs:580-655 | Undoing a whole run, last action first, always succeeds and brings back the tree, whether all its actions succeeded or one failed; the pending list comes back too if and only if the run discarded nothing that was pending at its start. |
| `LeftCopy.StoppedRunRestores` | crates/fs/src/lib.rs:580-655 | A run that stopped after a visible change of its last action is brought back by that undo list and those before it, if and only if nothing was discarded that was pending at its start, and it did not stop between the renames of a reclaim, or did so in a tree that the run itself made and that is removed whole. |
| `LeftCopy.HalfReclaimedRun` | crates/fs/src/lib.rs:1076-1133 | A run that stopped between the renames of a reclaim can be undone to its end if and only if no `create_dir` of its own made the directory that the copy is left in, followed through all renames; the tree then comes back without the copy, or with it in a known directory. |
| `LeftCopy.ADirectoryIsStuck` | crates/fs/src/lib.rs:894-940 | The concrete case: a directory made, a file put into it and reclaimed by halves; the undo list of the reclaim succeeds, and that of the directory fails because it is not empty. |
| `LeftCopy.ActionWithCopy` | crates/fs/src/lib.rs:894-1074 | The undo list of any one action, with the copy in the way: it fails, takes the copy along, or leaves it where `Before` says. |
| `LeftCopy.RemovedWithCopy` | crates/fs/src/lib.rs:894-963 | A removal with the copy below it: of a whole tree, the copy goes too; of an empty directory only, it is refused. |
| `FileUndo.StaysCounted` | crates/fs/src/lib.rs:430-436 | After any action the sibling names made up next are free, in the tree and in the pending list. |
| `FileUndo.CreationUndone` | crates/fs/src/lib.rs:656-738 | Created directories, chains of them, files and copied trees are removed again without a trace. |
| `FileUndo.ReplacementUndone` | crates/fs/src/lib.rs:740-803 | A replaced file comes back with its identity, from before and after the old one was listed for removal. |
| `FileUndo.ReclaimUndone` | crates/fs/src/lib.rs:1076-1133 | A finished reclaim is undone: the copy is removed and the tree that was aside is back. |
| `FileActions.FailureChangesNothing` | crates/fs/src/lib.rs:656-1133 | An action that fails, the undo refused included, leaves tree and pending list as they were. |
| `FileActions.NothingVisibleUnprepared` | crates/fs/src/lib.rs:656-1133 | No action but those that serve as undo themselves succeeds without its undo having been accepted. |
| `Files.Files.DoCreateDirs` | crates/fs/src/lib.rs:656-696 | The calls on the tree, one by one, come to the specified action, result and visible states: it builds the chain aside, announces its removal, renames it in where the name is free. |
| `Files.Files.DoCreateDir` | crates/fs/src/lib.rs:698-738 | The calls on the tree, one by one, come to the specified action, result and visible states: it makes one directory aside, announces its removal, renames it in where the name is free. |
| `Files.Files.DoPutFile` | crates/fs/src/lib.rs:740-803 | The calls on the tree, one by one, come to the specified action, result and visible states: it installs a file, or exchanges it with the one held and lists the old one for removal. |
| `Files.Files.DoSetMode` | crates/fs/src/lib.rs:805-830 | The calls on the tree, one by one, come to the specified action, result and visible states: it changes the mode of exactly the node with the held mode. |
| `Files.Files.DoSetOwner` | crates/fs/src/lib.rs:832-858 | The calls on the tree, one by one, come to the specified action, result and visible states: it changes the owner of exactly the node with the held owner. |
| `Files.Files.DoSetAside` | crates/fs/src/lib.rs:860-883 | The calls on the tree, one by one, come to the specified action, result and visible states: it renames the node with that identity to a sibling and lists it. |
| `Files.Files.DoDiscard` | crates/fs/src/lib.rs:885-892 | The calls on the tree, one by one, come to the specified action, result and visible states: it lists the path. |
| `Files.Files.DoRemoveCreated` | crates/fs/src/lib.rs:894-940 | The calls on the tree, one by one, come to the specified action, result and visible states: it removes exactly the created file or empty directory. |
| `Files.Files.DoRemoveCreatedTree` | crates/fs/src/lib.rs:942-963 | The calls on the tree, one by one, come to the specified action, result and visible states: it removes exactly the created tree. |
| `Files.Files.DoCopyTree` | crates/fs/src/lib.rs:992-1033 | The calls on the tree, one by one, come to the specified action, result and visible states: it copies a tree under a new identity and owner. |
| `Files.Files.DoRestore` | crates/fs/src/lib.rs:1035-1074 | The calls on the tree, one by one, come to the specified action, result and visible states: it brings the node back, by rename or exchange, and takes it off the list. |
| `Files.Files.DoReclaimTree` | crates/fs/src/lib.rs:1076-1133 | The calls on the tree, one by one, come to the specified action, result and visible states: it copies the tree, sets the old one aside, and puts the copy in its place. |
| `Files.Files.BuildChain` | crates/fs/src/lib.rs:1314-1357 | The loop from the innermost directory outwards builds the nested directories. |
| `Resolve.OneCallAgreesWithTheWalk` | crates/fs/src/lib.rs:283-330 | On every normalised path the one-call lookup gives the directory and name, or the failure, of the walk component by component. |
| `Resolve.AgreesExactly` | crates/fs/src/lib.rs:283-330 | The one-call lookup and the walk agree if and only if the path is normalised or the one call leaves the answer to the walk: no slash, a last name of none or two dots, a link on the way or at the end, or a way out of the root. |
| `Resolve.AStepUpwardsTellsThemApart` | crates/fs/src/lib.rs:283-330 | The concrete case of the other paths: `/a/../b` is taken by the one call and refused by the walk. |
| `Resolve.StaysBelowTheRoot` | crates/fs/src/lib.rs:332-424 | The walk ends in a directory below the root, whatever links, absolute or with `..`, it meets, and never at a link it should have followed. |
| `Resolve.OthersLinksDoNotMatter` | crates/fs/src/lib.rs:332-424 | Two trees alike in all but the targets of links of other owners give the same walk, from every directory, with every components left and after any number of hops. |
| `Resolve.OthersLinksChangeNothing` | crates/fs/src/lib.rs:283-424 | So the lookup of a whole path, normalised or not, never depends on where such a link leads. |
| `Resolve.FollowsOnlyTheTrusted` | crates/fs/src/lib.rs:332-424 | The links that are followed belong to the trusted owner, and are at most 40; `ResolveThroughLinks` collects exactly these. |
| `Resolve.WalkAgrees` | crates/fs/src/lib.rs:283-330 | Without steps upwards the kernel lookup arrives where the walk arrives and is refused where the walk is. |
| `Resolve.ResolveThroughLinks` | crates/fs/src/lib.rs:332-424 | The loop over a queue of components and a stack of directories ends (hops left, then components left), computes the walk, and asks for the targets of exactly the links the walk follows. |
| `Resolve.Find` | crates/fs/src/lib.rs:283-321 | `resolve`, the one call first and the walk where that meets a link: the result of the walk on every normalised path. |
| `Commit.StopsDoNotMatterExactly` | crates/fs/src/lib.rs:1569-1616 | For all pending paths: a commit stopped at any entry, and what it kept committed again, always leaves the tree and the kept list of a commit that was never stopped if and only if no path of another user is exposed, that is, reached in a directory with other entries by a later removable path above it. |
| `Commit.StopChangesNothingInTheEnd` | crates/fs/src/lib.rs:1569-1616 | The one half of it, for every stop. |
| `Commit.SomeStopMatters` | crates/fs/src/lib.rs:1628-1655 | The other half: where a path is exposed, a stop right after it was removed forgets it. |
| `Commit.AStopForgetsAPath` | crates/fs/src/lib.rs:1569-1616 | The concrete case: another user's file and then its directory are pending, the stop comes between the file and the other entry, and the file is kept by the whole commit but not by the two halves. |
| `Commit.NothingAboveIsSteady` | crates/fs/src/lib.rs:1569-1616 | In a list in which no path comes before one above it nothing is exposed, whatever the tree. |
| `Commit.StopsAreHalves` | crates/fs/src/lib.rs:1628-1655 | What the steps of a removal, entry by entry in any order, may leave when stopped is exactly some of the entries of each directory, untouched but for the one at which the stop came. |
| `Commit.AnyTurnsComeToTheSame` | crates/fs/src/lib.rs:1551-1555 | Under the same condition so does a commit stopped any number of times, and the condition stays. |
| `Commit.KeptByCommit` | crates/fs/src/lib.rs:1569-1616 | For all pending paths, repeated and nested ones included: kept are, in their order, exactly those that were blocked to begin with and those in a tree that an earlier one took away. |
| `Commit.TreeOfCommit` | crates/fs/src/lib.rs:1569-1616 | For all pending paths the tree that is left is the tree without what is at or below a path that was not blocked to begin with. |
| `Commit.DroppedAreGone` | crates/fs/src/lib.rs:1569-1616 | Path by path: in the end there is what was there, the same node, unless it is at or below such a path. |
| `Commit.CommitsElsewhere` | crates/fs/src/lib.rs:1569-1616 | A commit, stopped or not, touches nothing apart from the pending paths. |
| `Commit.NotStopped` | crates/fs/src/lib.rs:1569-1616 | A commit that nobody stops has one result. |
| `Commit.AnyOrderLeavesTheSame` | crates/fs/src/lib.rs:1569-1616 | The order of the pending paths, and how often each is there, does not matter to the tree. |
| `Commit.DetachedTreesComeToTheSame` | crates/fs/src/lib.rs:1149-1160 | So committing the rest first and the detached trees after it leaves the same tree, for all pending paths. |
| `Commit.Disk.CommitPaths` | crates/fs/src/lib.rs:1569-1616 | The loop with its kept list is such a commit; the outcome is Ok exactly when nothing is kept, a stop wins over failures, and a failure is that of the first kept path with the reason at its turn. |
| `Commit.FirstReason` | crates/fs/src/lib.rs:1569-1616 | That reason is the one to begin with, unless an earlier path took its directory away. |
| `Commit.Disk.RemoveNode` | crates/fs/src/lib.rs:1628-1655 | Depth first and entry by entry; stopped, it leaves such a half and nothing else changed. |
| `Agent.EveryRunIsTheSequentialOne` | crates/home/src/lib.rs:164-236 | Every interleaving of client and agent over the two channels ends within a bound given by the calls, meets no message out of turn, and where it can go no further has changed the files and ended the calls as if each was done alone, one after the other. |
| `Agent.NobodyWaitsForEver` | crates/home/src/lib.rs:302-372 | As long as the session is not over, one of the two can take a step. |
| `Agent.StepsRunOut` | crates/home/src/lib.rs:164-236 | Every step brings the session nearer to its end. |
| `Agent.RunsStayInOrder` | crates/home/src/lib.rs:164-236 | In every state that can be reached no message came out of turn, and the outcome still to come is the sequential one. |
| `Agent.EndingsAnswerTheCalls` | crates/home/src/lib.rs:302-377 | Each call gets exactly one ending, of its own kind; `adopt` gets none from the agent. |
| `Agent.NoChangeBeforeProceed` | crates/home/src/lib.rs:217-231 | The files change only when the agent takes the `Proceed` that answers its own `Prepared`, an adoption, a commit, or an action that announces nothing. |
| `Agent.LinksOnTheWayConflict` | crates/home/src/lib.rs:121-135 | With a link on the way, setting aside and removing end in the conflict that the refusal would give. |
| `NixLog.NixLog.Observe` | crates/nixlog/src/lib.rs:208-224 | One record, with its field updates, whatever it is: the sums stay those of the ledger of activities and of the reports lost to restarts. |
| `NixLog.NixLog.StopActivity` | crates/nixlog/src/lib.rs:257-266 | The live share of an activity moves to what is finished; no subtraction clamps. |
| `NixLog.NixLog.ReportProgress` | crates/nixlog/src/lib.rs:275-292 | The live share of an activity is replaced by its report; no subtraction clamps. |
| `NixLog.NixLog.Snapshot` | crates/nixlog/src/lib.rs:175-193 | Shows, slot by slot, the sums of the last reports of all activities, those lost to restarts included. |
| `NixLog.SumsAreExact` | crates/nixlog/src/lib.rs:247-292 | After any records all sums are those over the ledger if and only if every activity that was started again while it ran had last reported nothing but zeros. |
| `NixLog.AnyRecordsTrack` | crates/nixlog/src/lib.rs:226-292 | After any records each live sum is that of the running activities plus what was lost, exactly. |
| `NixLog.LostForEver` | crates/nixlog/src/lib.rs:247-292 | No later record takes back what was lost. |
| `NixLog.StartedAgainIsNeverSettled` | crates/nixlog/src/lib.rs:247-292 | Once everything was stopped, what still counts as live is what restarts lost, of that time and all earlier ones. |
| `NixLog.AnActivityStartedTwice` | crates/nixlog/src/lib.rs:247-255 | The concrete case: one activity reports, is started again and stopped, and its report counts as live with nothing running. |
| `NixLog.DoneNeverShrinks` | crates/nixlog/src/lib.rs:257-292 | While reports only grow, what is shown as done never shrinks, and every record but a report leaves it as it is. |
| `Counters.DecimalReads` | crates/ui/src/activity.rs:163-177 | The digits written read back as the number, without leading zeros. |
| `Counters.DigitsAreWritten` | crates/ui/src/activity.rs:179-181 | `digits` is the number of digits that `write_u64` writes. |
| `Counters.WriteNumber` | crates/ui/src/activity.rs:163-177 | The loop from the last digit to the first fills its twenty bytes with the decimal text of every 64-bit number and never runs out of them. |
| `Counters.CounterKeepsItsWidth` | crates/ui/src/activity.rs:103-111 | Before the slash stands the number, padded to the width of the wider of the two. |
| `Counters.WriteCounter` | crates/ui/src/activity.rs:103-111 | The loop of blanks and the two numbers write that counter. |
| `Counters.Scale` | crates/ui/src/activity.rs:130-142 | The loop stops at the one unit in which the count is below 1024, or at TiB. |
| `Counters.ScaleIsUnique` | crates/ui/src/activity.rs:130-142 | There is only one such unit. |
| `Counters.RoundsHalfUp` | crates/ui/src/activity.rs:144-161 | The tenths are within half a tenth of the count, a half going up. |
| `Counters.PartsAreTenths` | crates/ui/src/activity.rs:150-155 | Whole and tenths computed apart, with the carry, are the tenths of the whole count rounded at once. |
| `Counters.StaysIn64Bits` | crates/ui/src/activity.rs:150-155 | No intermediate result leaves 64 bits. |
| `Counters.WriteScaled` | crates/ui/src/activity.rs:144-161 | Writes the rounded count with exactly one digit behind the point. |
| `Counters.WriteBytes` | crates/ui/src/activity.rs:121-128 | Writes both counts in the unit of the larger one. |

## Left out

- Text is a sequence of characters, not of UTF-8 bytes; every structural byte of the grammars is ASCII, and the order of code points is that of the bytes. Parse errors carry a position in characters. Bytes of paths and references are characters below 256.
- Writers that take closures (`attrs`, `list`, `interp`, `lambda`) are modelled by a call before and a call after what the closure does.
- The parser recurses as deep as the text nests; the depth of the machine stack is not modelled.
- The outbox calls its wake function on every push; that function, the `Node` handles with their lifetimes, and the mutexes are left out. All interleavings of single pushes and pops are covered; operations on the tree follow one another, as its lock demands.
- Node ids, keys and sequence numbers are unbounded; the 64-bit counters of the source would have to overflow to tell the difference.
- Lookups by path in a validated stream, and the wording of violations and journal entries, are left out; the entries keep what they name.
- Processes, output lines and warnings carry their content opaquely; cutting output bytes into lines is not modelled.
- The tree of files has no permission checks, no set-id bits cleared by chown, no device nodes, hard links, removal across file systems or `fsync`, and no errors of calls other than those for missing names, wrong kinds, wrong owners, wrong identities and taken names. A failed action's own clean-up is taken to succeed.
- Nobody else changes the tree of files while an action runs, so the second look that the source takes at what it opened always agrees.
- The entry conditions that a caller establishes before `perform`, and the recovery of an undo that was prepared while nothing had changed yet, are decided outside these files.
- Directories that a lookup has seen are kept open by the source; the model opens each anew.
- The read-only queries on files (`observe`, `installed_links`, `leftovers`, `contents`), which change nothing.
- A directory is removed entry by entry in any order, as the kernel may list it.
- Of the session with the agent, starting the process, its death in mid-session, the check that a request names the agent's own user, and the content of answers other than that of actions are left out.
- Reading nix records and plans from text, and the classification of nix failures, are left out; the model starts from decoded records. Sums are unbounded.
- The choice between download and build counters, terminal drawing, escape sequences and `printable`.
- How many waiting notices a call for the profile locks gets is any number, but given with the call.
- The refusal of the agent looks its path up through trusted links; the model looks without links, which for a discard through such a link leaves the refusal out.
- The rest of the daemon, the rpc and exec crates, the command line, the explanations and the JSON output are not modelled.
