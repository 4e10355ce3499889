# Proofs for the gates and surfaces of the desktop

This project models the parts of the repository where state, parsing and interleaving are hardest to
get right by reading, and proves what each is for. It is Dafny 4.11; `dafny verify dfyconfig.toml`
checks everything.

**The egress gate** (`ShellWalk`, `ShellLines`, `LineReader`, `UnitFile`, `ExecStart`, `Installs`,
`Destinations`, `EgressGate`, `Shipping`). The gate interprets installer scripts: it joins continued
lines, cuts statements under quoting, walks a flat list as if it were nested, resolves install lines
to landings, merges drop-ins and decides. `ShellWalk.WalkPrinted` is the refinement of the flat walk by
a nested meaning and `ShellWalk.WalkSeesAll` says when it misses nothing, `UnitFile.AppendAnyDropIn` is
the exact law of merging, `Installs.CopyAccount` the account of every copied source,
`ExecStart.ReaderFindsExactly` what the gate finds in an ExecStart value, `Shipping.Gate` runs from the
texts of all scripts to the exit status, and `Shipping.ShippedUnitIsJudged` says what that status is
worth for a file an installer copies.

**Interleaved protocols** (`Notes`, `Sessions`, `Assistant`, `Consents`, `Voice`, `Angles`,
`PageLists`, `Preview`, `PreviewExport`, `Glass`). Each is a state machine whose events are the
person's actions, the segments of code between two awaits or callbacks, and the outside world's
replies, in any order; theorems are about every run. Beside each stands a class whose methods are
those segments, tied to the steps.

**Parsers that undo a printer** (`PkgArray`, `ForkCheck`, `RunBlocks`, `AdrIndex`) and **indexed checks
against their simple definition** (`PackagePaths`, `DesktopInventory`, `PkgScopes`).

`Text` holds the string operations the Python sources use. A module that never looks inside words
takes them through a record of functions (`Grammar`, `World`, `Reader`, `Naming`), so its results hold
for every such choice; `ShellWalk.SHELL`, `Destinations.Gate` and `RunBlocks.YAML` are the code's own.

## What the code does that one might not expect

Each of these is a theorem here, with the exact condition where there is one.

- A copy whose destination is a systemd directory followed by `//%PKGDIR%` is recorded nowhere
  (`Destinations.VanishingDestination`; exactly when: `Installs.CopyAccount`, `Destinations.VanishesExactly`).
- A drop-in without a section header counts for the gate though systemd ignores it
  (`UnitFile.HeadlessDropInLeaks`; exactly when: `UnitFile.MergeExactly`), and a unit ending in a
  continuation takes the next file's marker into its last value (`UnitFile.DanglingUnitSwallowsMarker`;
  exactly when a merge differs, for any text: `UnitFile.MergeAnyExactly`).
- A command on the line of a keyword, as in `do install …` or `if install …`, runs in the shell and is
  never seen by the gate (`ShellWalk.InstallBehindDoIsMissed`; exactly when: `ShellWalk.WalkSeesAll`).
  The comment at os/repo-tools/check-egress-units.py:527-536 claims over-collection only.
- A daemon outside the program directories, `/opt/lisa/lisa-agentd` say, names nothing for the gate
  (`ExecStart.OptDaemonIsMissed`; exactly what is found: `ExecStart.ReaderFindsExactly`).
- In Notes, a second read of a note pending across a save leaves a clean note on screen that is not what
  is stored (`Notes.SecondReadHidesSave`; exactly which steps do it: `Notes.Level`, by
  `Notes.CleanMeansStored` and `Notes.LevelIsNeeded`).
- In Notes, searching after a first save and before the list with the new note arrives turns the note
  being edited into a draft again, and saving creates it twice (`Notes.SearchDuplicatesDraft`; exactly
  when: `Notes.DemotedExactly`).
- In the Assistant, an open answered during a run files the finished run under the wrong conversation
  (`Assistant.LateOpenLosesTurn`; exactly when: `Assistant.MidRunSwitchExactly`). The comment at
  shell/assistant/lib/sessions.js:377 says what is open wins over what is stored; the code keeps the
  stored entry (`Sessions.StoredEntryWins`).
- A late voice signal hides the indicator of a running recording (`Voice.LateSignalHidesIndicator`;
  exactly when: `Voice.IndicatorFollowsExactly`), and a stop call that raises leaves a recording that may
  run on with no timer (`Voice.RaisedStopLeavesMicrophone`; exactly when: `Voice.OpenMicrophoneHasTimer`).
- Pages moved or rotated while qpdf runs lose the edit (`Preview.MoveDuringSaveIsLost`,
  `Preview.RotationDuringSaveIsLost`; exactly when: `Preview.EditsDuringSave`).
- A run that ends without a word is stored without its empty turn (`Assistant.FinishedRunIsFiled`).
- A quoted array entry that begins or ends with a quote character loses it (`PkgArray.ArrayRoundTrip`).
- A literal block whose first non-blank line is indented loses that indentation on every line
  (`RunBlocks.LiteralRoundTrip`). Folding joins deeper lines too, where section 8.1.3 of YAML 1.2.2 keeps
  their breaks, and halves runs of empty lines (`RunBlocks.DeeperLineIsJoined`; exactly when:
  `RunBlocks.FoldsExactly`).
- An ADR whose title or status holds the closing sentinel makes the generated file grow on every run
  (`AdrIndex.RegeneratedOnce`, `AdrIndex.IndexSettlesExactly`).
- The comment at os/repo-tools/check-desktop-inventory.py:506 says a package function overrides the
  global scope; the code lets whichever comes later in the text win (`PkgScopes.OverrideByOrder`). When
  two forks claim one stock name, only the later is on record (`DesktopInventory.ClaimDelivered`).

## Model

| member | source | states |
|---|---|---|
| ShellWalk.TakeBlock | os/repo-tools/check-egress-units.py:510-524 | the block it returns is the statements up to the `done` closing the loop, nested loops counted, and the index after it |
| ShellWalk.Walk | os/repo-tools/check-egress-units.py:527-576 | the flat walk does exactly what the recursive specification of a flat statement list does |
| ShellWalk.WalkOne | os/repo-tools/check-egress-units.py:537-576 | one turn consumes at least one statement and does what the specification does with it |
| ShellWalk.WalkEach | os/repo-tools/check-egress-units.py:543-551 | a loop body is walked once per expanded word, each time in a copy of the environment the loop started in |
| ShellWalk.Simple | os/repo-tools/check-egress-units.py:559-576 | assignments alone change the environment; before a command word they hold for that command only |
| ShellWalk.AcrossPrinted | os/repo-tools/check-egress-units.py:510-524 | block extraction over a printed script passes over every nested loop whole, whatever follows |
| ShellWalk.DoesPrinted | os/repo-tools/check-egress-units.py:527-576 | walking a printed script in any context does what running it without the words behind its keywords does, and goes on from the environment that leaves |
| ShellWalk.WalkPrinted | os/repo-tools/check-egress-units.py:527-576 | refinement: walking any well-formed nested script printed flat visits the same commands, in order, with the same expanded words and final environment, as the recursive meaning of the script with everything behind a keyword deleted |
| ShellWalk.WalkSeesAll | os/repo-tools/check-egress-units.py:527-576 | the walk never visits more commands than the script runs, and visits the same ones, line by line and as often, if and only if no statement that can run has a command word behind its keyword |
| ShellWalk.WalkIsRun | os/repo-tools/check-egress-units.py:527-576 | with nothing behind any keyword the walk is the run: commands, order, words and environment |
| ShellWalk.InstallBehindDoIsMissed | os/repo-tools/check-egress-units.py:556-558 | `for NAME in WORDS; do install ARGS; done` installs once a word and shows the gate nothing |
| ShellWalk.VisitsHaveWords | os/repo-tools/check-egress-units.py:537-576 | the visitor is never handed an empty command |
| ShellWalk.ShellWords | os/repo-tools/check-egress-units.py:527-576 | the keyword sets of the gate make a grammar the refinement is about |
| ShellWalk.ExpandMeans | os/repo-tools/check-egress-units.py:501-507 | expansion of any written word is the concatenation of its text and the values its `$NAME` and `${NAME}` have; a name the environment does not hold stays as written, `$` and all |
| ShellWalk.EveryWordWritten | os/repo-tools/check-egress-units.py:501-507 | every word whatever has such a reading, with names that run as far as they can |
| ShellWalk.AssignmentExactly | os/repo-tools/check-egress-units.py:394 | a word assigns if and only if it is a name, an equals sign and anything |
| ShellWalk.CommandMeans | os/repo-tools/check-egress-units.py:559-576 | assignments alone change the environment and show nothing; in front of a command they hold for that command only; the last one that binds a name wins, an array binds nothing, and every value is read in the environment before all of them |
| ShellWalk.ForSubstitutes | os/repo-tools/check-egress-units.py:543-551 | a loop visits its body once for each value the words of its list have, in order, with that value in the place of every `$NAME` and `${NAME}` |
| ShellWalk.ForLoopSubstitutes | os/repo-tools/check-egress-units.py:543-551 | the same for `for NAME in WORDS; do` … `done` in the words of the gate |
| ShellLines.LogicalLines | os/repo-tools/check-egress-units.py:421-434 | the logical lines of a text with their first line numbers, as specified |
| ShellLines.JoinUndoesContinuation | os/repo-tools/check-egress-units.py:421-434 | writing logical lines with backslash continuations and joining them gives them back, numbered |
| ShellLines.SplitStatements | os/repo-tools/check-egress-units.py:437-472 | the statements of a line, cut outside quotes, as specified |
| ShellLines.CutKeepsLine | os/repo-tools/check-egress-units.py:437-472 | statements, separators and comment woven together are the line: nothing is lost or duplicated |
| ShellLines.CutUndoesLine | os/repo-tools/check-egress-units.py:437-472 | cutting a line written from statements and separators returns the statements; quoted and escaped separators never cut |
| ShellLines.PiecesAre | os/repo-tools/check-egress-units.py:437-472 | what a piece may hold, character by character: the two quotes, the three separators, the hash that begins a word |
| ShellLines.CommentCut | os/repo-tools/check-egress-units.py:437-472 | a hash that begins a word ends the line |
| ShellLines.Tokenize | os/repo-tools/check-egress-units.py:475-498 | the statements of a whole text with their line numbers, and the refused ones that name a systemd directory, as specified |
| ShellLines.NoStatementLost | os/repo-tools/check-egress-units.py:475-498 | each statement of each logical line that is not blank is a command at that line, or, refused while naming a systemd directory, an error there |
| LineReader.FoldJoined | os/repo-tools/check-egress-units.py:976-995 | folding over the joined logical lines is reading the physical lines with continuations joined on the way |
| Text.WordsBack | os/repo-tools/check-egress-units.py:1102-1110 | the words of a text are what stands between its blanks |
| Text.StripBack | os/repo-tools/check-egress-units.py:976-995 | stripping takes the blanks off both ends and nothing else |
| LineReader.ReadAppend | os/repo-tools/check-egress-units.py:976-995 | reading one text after another is reading them in turn, the state carried over |
| LineReader.ReadOn | os/repo-tools/check-egress-units.py:976-995 | reading more lines goes on where the first ones stand, also inside a continued line |
| LineReader.SectionLaw | os/repo-tools/check-egress-units.py:976-995 | the section a text starts in matters exactly through the lines before its first header |
| UnitFile.ServiceLines | os/repo-tools/check-egress-units.py:976-995 | the directives of [Service], in order, values stripped |
| UnitFile.EffectiveValues | os/repo-tools/check-egress-units.py:998-1024 | the words of the assignments after the last empty one; `seen` holds exactly when there are any |
| UnitFile.InForceAppend | os/repo-tools/check-egress-units.py:998-1024 | a later file appends to a list directive, or replaces it when it resets |
| UnitFile.InForceExactly | os/repo-tools/check-egress-units.py:998-1024 | what is in force for a key is the words of exactly its assignments with no empty one behind them, in file order |
| UnitFile.MergedText | os/repo-tools/check-egress-units.py:1027-1040 | the merged text is the unit followed by a marker and text for each drop-in |
| UnitFile.AppendAnyDropIn | os/repo-tools/check-egress-units.py:1027-1040 | exact law of a drop-in after any text at all: the finished lines, the last one as the marker completes it, the lines before the first header if the section then is [Service], what the drop-in says |
| UnitFile.MergeAnyExactly | os/repo-tools/check-egress-units.py:1027-1040 | for any text: merging equals reading in turn if and only if the last logical line completed by the marker, with the header-less lines it lets in, says what that line says alone |
| UnitFile.AppendDropIn | os/repo-tools/check-egress-units.py:1027-1040 | the same for a text not ending in a continuation: what the unit says, the lines before the drop-in's first header if the unit ended in [Service], what the drop-in says |
| UnitFile.MergeExactly | os/repo-tools/check-egress-units.py:1027-1040 | merging equals reading the files in turn if and only if no [Service] section runs into lines before the drop-in's first header |
| UnitFile.MergeDirectives | os/repo-tools/check-egress-units.py:1027-1040 | for drop-ins opening with a header and files not ending in a continuation, the merged text says what the files say in order |
| UnitFile.MergedInForce | os/repo-tools/check-egress-units.py:998-1040 | the values in force in the merged text are the unit's layered with each drop-in's |
| UnitFile.HeadlessDropInLeaks | os/repo-tools/check-egress-units.py:1027-1040 | a header-less drop-in, which alone says nothing, adds its directive to any unit ending in [Service] |
| UnitFile.DanglingUnitSwallowsMarker | os/repo-tools/check-egress-units.py:1027-1040 | any unit that ends in an unfinished [Service] assignment, whatever stands before it: the value keeps its blanks and takes the marker of the next drop-in, and the drop-in's header-less lines follow; excepted is a line opening with a bracket that the marker closes into a header |
| UnitFile.MarkerInValue | os/repo-tools/check-egress-units.py:1027-1040 | such units there are: one header and one continued assignment, whatever it assigns |
| ExecStart.ExecPrograms | os/repo-tools/check-egress-units.py:1102-1138 | the programs a text's ExecStart lines name and whether any stands behind a wrapper, as specified over the non-empty values |
| ExecStart.ExecValuesAre | os/repo-tools/check-egress-units.py:1102-1110 | the values read are those of the ExecStart lines that are not empty, and no others |
| ExecStart.EveryLineCounts | os/repo-tools/check-egress-units.py:1102-1138 | a Lisa name is reported if and only if some ExecStart line names it, and the unit is wrapped if and only if some line is |
| ExecStart.GateReaderHonest | os/repo-tools/check-egress-units.py:1076-1138 | what the gate's own reader reports as Lisa programs are Lisa names, and nothing else it reports is |
| ExecStart.ReaderFindsExactly | os/repo-tools/check-egress-units.py:1076-1138 | the reader finds a Lisa binary in a value if and only if the words name it: as the command, by bare name or path in a program directory behind any prefixes, as the surface a launcher starts, or behind a wrapper |
| ExecStart.ReaderWrapsExactly | os/repo-tools/check-egress-units.py:1129-1135 | a value counts as wrapped if and only if its command is a wrapper and a later word spells a Lisa binary |
| ExecStart.UnitNamesExactly | os/repo-tools/check-egress-units.py:1102-1138 | over a unit: a Lisa binary is among its programs if and only if the words of some value name it |
| ExecStart.FoundPlainly | os/repo-tools/check-egress-units.py:1089-1131 | any prefixes, a program directory and a Lisa name name that binary |
| ExecStart.FoundLaunched | os/repo-tools/check-egress-units.py:1076-1085 | a launcher, options and `path/name.js` name `name` |
| ExecStart.MissedElsewhere | os/repo-tools/check-egress-units.py:1089-1099 | a command in any other directory names nothing, whatever it is called |
| ExecStart.InetAllowed | os/repo-tools/check-egress-units.py:1145-1160 | a unit may open an IP socket exactly when its address-family list in force is empty, allows an IP family, or denies without denying both |
| ExecStart.EitherOpen | os/repo-tools/check-egress-units.py:1145-1160 | the any-loop of the address-family check |
| ExecStart.InetByLists | os/repo-tools/check-egress-units.py:1145-1160 | as units write it: no list leaves the families open, a list of families opens them exactly by naming one, a list of denials closes them exactly by naming both |
| Installs.SplitOptions | os/repo-tools/check-egress-units.py:579-595 | options with their arguments and operands, in order |
| Installs.SplitKeepsWords | os/repo-tools/check-egress-units.py:579-595 | splitting keeps every word but `--`, as often as it was written |
| Installs.SplitBack | os/repo-tools/check-egress-units.py:579-595 | splitting undoes writing a command: its operands in order, its options in order, each with the argument it takes |
| Installs.PlainCopy | os/repo-tools/check-egress-units.py:745-758 | a copy without a target option goes to its last operand, a directory when there are several sources or it ends in a slash |
| Installs.TargetCopy | os/repo-tools/check-egress-units.py:736-744 | a copy with `-t` or `--target-directory` puts every operand into the directory named behind it |
| Installs.RecordSources | os/repo-tools/check-egress-units.py:676-683 | the sources of an activation copy are all operands but the destination |
| Installs.RecordsExactly | os/repo-tools/check-egress-units.py:676-702 | a copy into the activation directory is without error exactly when every source resolves, and activates exactly what they resolve to |
| Installs.VisitDoes | os/repo-tools/check-egress-units.py:657-795 | what a written command comes to, by what it is and the words it has |
| Installs.LinkIs | os/repo-tools/check-egress-units.py:709-724 | a symlink lands as a wish for the unit its target is called, at the place its destination names, or is an error |
| Installs.Discovery.Visit | os/repo-tools/check-egress-units.py:657-795 | the four lists of discovery grow by exactly the specified effect of one command; false only for the exception of `-t` without argument |
| Installs.Discovery.Copied | os/repo-tools/check-egress-units.py:736-793 | a copy into a systemd directory records its sources word by word |
| Installs.Discovery.Linked | os/repo-tools/check-egress-units.py:709-724 | a symlink into a systemd directory records one landing |
| Installs.Discovery.Activate | os/repo-tools/check-egress-units.py:671-702 | a copy into the D-Bus directory records its activations |
| Installs.Discovery.Word | os/repo-tools/check-egress-units.py:761-793 | a source word records one landing or error per resolved file, or one error when unresolved |
| Installs.CopyAccount | os/repo-tools/check-egress-units.py:736-793 | every source yields one record per resolved file or one error if and only if the destination does not vanish or nothing resolves: nothing is consumed unrecorded otherwise |
| Installs.SourceSettled | os/repo-tools/check-egress-units.py:736-793 | each resolved file of each source ends as the landing or the error its destination dictates |
| Installs.VisitLeavesTrace | os/repo-tools/check-egress-units.py:657-795 | exactly when a command that names a systemd directory leaves no record at all |
| Destinations.GateFoldersHold | os/repo-tools/check-egress-units.py:635-654 | appending a file name to a destination never gives an empty path, so a folder destination always records |
| Destinations.VanishesExactly | os/repo-tools/check-egress-units.py:750-793 | a destination records nothing if and only if it is not a folder and what is left below the directory is slashes only |
| Destinations.DestinationRoundTrip | os/repo-tools/check-egress-units.py:365-367 | an absolute destination in a systemd directory reads as that directory and the path below it |
| Destinations.DestinationExactly | os/repo-tools/check-egress-units.py:365-367 | a path lands in a systemd directory if and only if one is named at a component of it, the leftmost one, and then at the path below it |
| Destinations.PackagedDestination | os/repo-tools/check-egress-units.py:365-367 | a destination written below the package directory lands in the directory and at the path it names |
| Destinations.ShapeExactly | os/repo-tools/check-egress-units.py:635-654 | drop-in, unit, wish and other unit, each if and only if the path is spelled so, with the unit name it belongs to; everything else is unmodelled |
| Destinations.TrimKeeps | os/repo-tools/check-egress-units.py:637 | trimming takes the slashes off both ends and nothing else |
| Destinations.BaseNameBack | os/repo-tools/check-egress-units.py:784 | the name of a file is what stands behind the last slash |
| Destinations.BaseNameSkips | os/repo-tools/check-egress-units.py:784 | a slash or a dot at the end does not change the name of a path |
| Destinations.RolesAre | os/repo-tools/check-egress-units.py:396-398 | which commands copy, link and make directories, by name |
| Destinations.MarkersAre | os/repo-tools/check-egress-units.py:663-664 | what a word must hold to name a systemd directory or the activation directory, and what makes a source uncertain |
| Destinations.OptionIs | os/repo-tools/check-egress-units.py:588-592 | an option is a dash and something behind it |
| Destinations.DropInPlace | os/repo-tools/check-egress-units.py:635-654 | a file put into `STEM.service.d/` as `NAME.conf` is a drop-in of `STEM.service` |
| Destinations.UnitPlace | os/repo-tools/check-egress-units.py:635-654 | a file put into the directory itself as `STEM.service` is that unit |
| Destinations.VanishingDestination | os/repo-tools/check-egress-units.py:750-793 | for every systemd directory, the destination written `…//%PKGDIR%` vanishes: a copy to it is recorded nowhere |
| EgressGate.Group | os/repo-tools/check-egress-units.py:823-869 | units, fragments and installed names of a landing list |
| EgressGate.SortedInOrder | os/repo-tools/check-egress-units.py:866-867 | drop-ins are applied in name order, none lost or added |
| EgressGate.SortedStable | os/repo-tools/check-egress-units.py:866-867 | drop-ins of one file name stay in the order they were found |
| EgressGate.EveryDropInApplies | os/repo-tools/check-egress-units.py:837-869 | every drop-in landed for a unit is part of the text the unit is judged by |
| EgressGate.OnlyDropInsApply | os/repo-tools/check-egress-units.py:837-869 | nothing else is: each file merged into a unit landed as a drop-in of that unit in that scope |
| EgressGate.UnitsAreLandings | os/repo-tools/check-egress-units.py:837-843 | the units judged are exactly the unit files that landed |
| EgressGate.ReadFacts | os/repo-tools/check-egress-units.py:1172-1216 | the facts of a unit are those of its file merged with its drop-ins |
| EgressGate.Classify | os/repo-tools/check-egress-units.py:1172-1216 | one row a unit, its facts and posture as specified; a unit running two daemons is a finding |
| EgressGate.JudgeRow | os/repo-tools/check-egress-units.py:1318-1413 | a row is found fault with exactly when its unit does not hold to the policy |
| EgressGate.JudgeRows | os/repo-tools/check-egress-units.py:1316-1413 | over all rows: no finding exactly when all hold, and exactly the confined and broker binaries are collected |
| EgressGate.GateMain | os/repo-tools/check-egress-units.py:1279-1437 | exit 0 if and only if nothing was found before and the verdict over the rows is good: ceilings exact, something in scope, every row holding, every required daemon covered |
| EgressGate.OrphanFragments | os/repo-tools/check-egress-units.py:940-974 | no finding is added if and only if each systemd fragment of the packages lands as a unit or a drop-in or is named as deliberately unshipped |
| EgressGate.ReadRecord | os/repo-tools/check-egress-units.py:890-900 | an activation record's command and unit are those of the first line for each key, and empty without one |
| EgressGate.FieldExactly | os/repo-tools/check-egress-units.py:890-900 | a key of a record has the value of its first line, and none without a line |
| EgressGate.FieldBack | os/repo-tools/check-egress-units.py:890-900 | a line `KEY=VALUE` is read as it is written |
| EgressGate.DbusActivation | os/repo-tools/check-egress-units.py:872-926 | no finding is added if and only if each record that starts a Lisa binary names an installed unit and is not listed as debt, or names none and is |
| EgressGate.RunGate | os/repo-tools/check-egress-units.py:1172-1437 | exit 0 if and only if discovery found nothing wrong, enabled units are installed, fragments land, activation records go through installed units and the landed units pass |
| EgressGate.VerdictIsPassing | os/repo-tools/check-egress-units.py:1172-1437 | the verdict over rows is the verdict over the units themselves |
| EgressGate.LandedUnitHolds | os/repo-tools/check-egress-units.py:1219-1437 | when the gate passes, every landed unit with its drop-ins holds to the policy |
| EgressGate.GateIsSound | os/repo-tools/check-egress-units.py:1102-1437 | exit 0: a landed unit whose ExecStart words name a no-egress binary, directly, by launcher or wrapped, has `any` in force for IPAddressDeny unless exempt, wraps nothing and names no other Lisa binary; in user scope it allows INET exactly when listed as debt |
| EgressGate.NoDaemonUnjudged | os/repo-tools/check-egress-units.py:1172-1437 | exit 0: no Lisa binary the words of an ExecStart value name ships unclassified, and no broker is confined |
| EgressGate.NoUnsandboxedActivation | os/repo-tools/check-egress-units.py:872-926 | exit 0: an installed activation record whose command spells a Lisa binary names a unit that lands, or names none and is listed as debt |
| EgressGate.FragmentIsJudged | os/repo-tools/check-egress-units.py:940-974 | exit 0: a systemd fragment not named as unshipped is the source of a landed drop-in, or of a landed unit that holds to the policy |
| EgressGate.EnabledIsInstalled | os/repo-tools/check-egress-units.py:844-862 | exit 0: a `.service` that a symlink enables is the unit of some landing of its scope; the check fails exactly when one is not |
| EgressGate.CleanLists | os/repo-tools/check-egress-units.py:1279-1312 | exit 0: each list that switches checks off is exactly as long as its stated ceiling |
| EgressGate.RequiredConfined | os/repo-tools/check-egress-units.py:1414-1437 | exit 0: for each daemon that must be confined some landed unit names it, wraps nothing and has `any` in force for IPAddressDeny |
| EgressGate.RequiredBroker | os/repo-tools/check-egress-units.py:1414-1437 | exit 0: for each broker that must be there some landed unit names it and is not confined |
| Shipping.Discover | os/repo-tools/check-egress-units.py:657-795 | discovery over a whole script adds up the effects of the visited commands |
| Shipping.ReadScript | os/repo-tools/check-egress-units.py:657-795 | one script's account, from its text: the effect of the commands the walk visits, the statements refused and the errors of the visits |
| Shipping.DiscoverAll | os/repo-tools/check-egress-units.py:823-834 | the landings, activations and findings of every script, in order |
| Shipping.TreeLandings | os/repo-tools/check-egress-units.py:798-820 | each file of an image tree lands where its own path says, or is an error |
| Shipping.Gate | os/repo-tools/check-egress-units.py:657-1437 | from the texts of all scripts and the files of the image trees to the exit status: 0 if and only if no command stops the gate, nothing is found in scripts or trees, and all landings and activations together hold to the policy |
| Shipping.SystemdStatementRead | os/repo-tools/check-egress-units.py:421-498 | exit 0: each non-blank statement of any script's text that names a systemd directory is one of the commands that script was read as, at its line |
| Shipping.ShippedUnitIsJudged | os/repo-tools/check-egress-units.py:421-1437 | text to verdict: in a script that reads as a nested script with nothing behind its keywords, take any command its shell meaning runs that copies to a place in a systemd directory. Exit 0 means its sources resolve, each file lands, and one that lands as a unit is a unit of the gate and holds to the policy |
| Shipping.ShippedServiceHolds | os/repo-tools/check-egress-units.py:421-1437 | with the gate's own path readers: exit 0 means a file copied into a systemd directory as `STEM.service` is the unit of that name and holds to the policy |
| Shipping.ShippedDropInApplies | os/repo-tools/check-egress-units.py:421-1437 | with the gate's own path readers: exit 0 means a file copied into `STEM.service.d/` as `NAME.conf` is merged into every unit landed as `STEM.service` in that scope |
| Shipping.ShippedLinkInstalled | os/repo-tools/check-egress-units.py:709-862 | exit 0: what such a script links into a systemd directory as a `.service` is the unit of something that lands in that scope |
| Shipping.ShippedCommandIsKnown | os/repo-tools/check-egress-units.py:704-747 | exit 0: each command such a script runs that names a systemd directory makes directories, links, or copies from operands the gate can tell apart |
| Shipping.ShippedRecordIsSandboxed | os/repo-tools/check-egress-units.py:671-926 | exit 0: an activation record such a script installs whose command spells a Lisa binary goes through a landed unit, or is listed as debt |
| Shipping.BakedUnitIsJudged | os/repo-tools/check-egress-units.py:798-1437 | exit 0: a file of an image tree at a place in a systemd directory lands, and if it lands as a unit it holds to the policy |
| Glass.PinPreserves | shell/glass/extension.js:58-67 | fixing one pair never breaks another |
| Glass.PassPins | shell/glass/extension.js:58-67 | one restacked pass leaves every backer directly below its own window and the order of windows unchanged, from any starting order |
| Glass.LisaGlass.Restacked | shell/glass/extension.js:58-67 | the handler performs that pass, and every clone list is again the visible windows below, bottom to top (`Below`) |
| Glass.LisaGlass.RebuildLower | shell/glass/extension.js:156-197 | a backer's clones are the visible windows below its own, and only live clones keep handlers |
| Glass.LisaGlass.Add | shell/glass/extension.js:109-146 | a wanted window gets one backer directly below it, once, with the visible windows below as clones; nobody leaves and no pinned pair comes apart |
| Glass.LisaGlass.Drop | shell/glass/extension.js:211-223 | a backer, its clones and its handlers go; everything else stays |
| Glass.BelowExactly | shell/glass/extension.js:164-170 | the clones of a backer: a window is among them if and only if it is visible and stands at a smaller index than the backer's own; they keep the stacking order and none stands twice |
| Glass.LisaGlass.Disable | shell/glass/extension.js:92-99 | no backer and no handler is left and the windows stand as they stood |
| Consents.OverlayWidget.OnConfirmationNeeded | shell/overlay-extension/extension.js:303-307 | a request is queued; it is rendered only if it is the only one |
| Consents.OverlayWidget.AnswerConsent | shell/overlay-extension/extension.js:330-343 | a click answers the request on screen and blocks the buttons |
| Consents.OverlayWidget.DropConsents | shell/overlay-extension/extension.js:348-365 | all requests of a query leave the queue; the box is drawn again if the front changed |
| Consents.EveryRun | shell/overlay-extension/extension.js:303-365 | in every run the box shows the head and is hidden exactly when the queue is empty; each arrival is answered at most once, in arrival order, under its own query id; the buttons work exactly while the head is unanswered |
| Consents.RespondsOnlyShown | shell/overlay-extension/extension.js:330-343 | a response goes out only for the request on screen |
| Consents.ClickAnswers | shell/overlay-extension/extension.js:330-343 | every click on live buttons sends exactly the response for the request on screen and blocks the buttons; any other click does nothing |
| Consents.QueueExactly | shell/overlay-extension/extension.js:303-365 | in every run the queue holds exactly the arrivals whose query has not finished or failed since |
| Consents.NewRequestAnswerable | shell/overlay-extension/extension.js:303-329 | after an empty queue a new request is shown and can be answered |
| Voice.Extension.StartTalking | shell/overlay-extension/extension.js:513-551 | the talk key as a step: toggles the running session or opens one with its timer |
| Voice.Extension.StopTalking | shell/overlay-extension/extension.js:553-568 | stopping ends the slot's recording and its timer |
| Voice.OpenMicrophoneHasTimer | shell/overlay-extension/extension.js:513-613 | at the end of every run each recording that may be running is the one the running timer will stop, if and only if no stop or cancel call raised |
| Voice.RaisedStopLeavesMicrophone | shell/overlay-extension/extension.js:553-568 | the failing run: after a stop call that raised, the recording may run with no timer, no slot and no indicator |
| Voice.IndicatorFollowsExactly | shell/overlay-extension/extension.js:513-645 | at the end of every run the indicator is up exactly while recording, if and only if nothing is recording or no signal came since the recording was opened |
| Voice.LateSignalHidesIndicator | shell/overlay-extension/extension.js:570-613 | the failing run: the transcription of one recording takes down the indicator of the next |
| Angles.NormalIsMod | apps/preview/lib/reorder.js:57-68 | the truncated-remainder normalisation is reduction modulo 360, for negative angles too |
| Angles.RotationAdds | apps/preview/lib/reorder.js:57-63 | turning a page adds to its own rotation modulo a full turn and to no other's |
| Angles.FourTapsUndo | apps/preview/lib/reorder.js:57-63 | four quarter turns restore the table itself |
| PageLists.MoveKeeps | apps/preview/lib/reorder.js:11-19 | a move loses and repeats no page: the order stays a rearrangement of itself |
| PageLists.MovesOne | apps/preview/lib/reorder.js:11-19 | a move takes one item to its new position and leaves the others in their order; out of range or equal positions change nothing |
| PageLists.MoveUndone | apps/preview/lib/reorder.js:11-19 | moving back undoes a move |
| PageLists.RemovesOne | apps/preview/lib/reorder.js:25-30 | a removal takes out exactly the item at the position, and never the last one |
| PageLists.MoveShows | apps/preview/lib/reorder.js:11-19 | moving a page of the order moves that page of the display |
| PageLists.RemoveShows | apps/preview/lib/reorder.js:25-30 | removing a page of the order removes that page of the display; the last page stays |
| PageLists.ChangeShows | apps/preview/lisa-preview.js:535-542 | turning one original page changes exactly its display position |
| PageLists.PageSpec | apps/preview/lib/reorder.js:112-123 | the compressed selection names exactly the order |
| PageLists.RotateArgs | apps/preview/lib/reorder.js:95-106 | one ascending argument per angle, turning exactly the pages with that angle, by output position |
| PageLists.QpdfWrites | apps/preview/lisa-preview.js:740-760 | given selection and rotations, output page p is the original page at p turned by its pending angle |
| Preview.ReopenShows | apps/preview/lisa-preview.js:437-454 | a document opened with identity order and no rotation shows itself |
| Preview.SkipExactly | apps/preview/lisa-preview.js:517-531 | skipping qpdf is sound, and for documents of different pages happens exactly when the display is the document |
| Preview.EditsShow | apps/preview/lisa-preview.js:535-542 | any list of moves, removals and rotations does to the display what doing it by hand does to the pages |
| Preview.EditIs | apps/preview/lisa-preview.js:535-542 | what one move, removal or rotation does to the pages on the screen, position by position |
| Preview.DisplayIs | apps/preview/lisa-preview.js:535-542 | what is on the screen at a position: the page the order has there, at its stored angle plus what is pending for it, modulo a full turn |
| Preview.QpdfWritesShown | apps/preview/lisa-preview.js:740-760 | qpdf writes exactly the display |
| Preview.SaveThenReopen | apps/preview/lisa-preview.js:695-760 | after any edits the saved copy, reopened, shows at every position the page and angle the edits give |
| Preview.Window.SaveEdited | apps/preview/lisa-preview.js:710-760 | the save handler: its outcome, and what it wrote or started, by the state it found |
| Preview.Window.SaveFinished | apps/preview/lisa-preview.js:1047-1056 | after qpdf the window goes over to the copy unless marks were added meanwhile; for a document of different pages the display is kept if and only if order and pending angles are those of save time |
| Preview.EditsDuringSave | apps/preview/lisa-preview.js:1047-1056 | any edits made while qpdf runs survive the reload if and only if they left the order and every pending angle as they were at save time |
| Preview.RotationDuringSaveIsLost | apps/preview/lisa-preview.js:1047-1056 | a page turned while qpdf runs keeps the turn after the reload if and only if it is a full one |
| Preview.MoveDuringSaveIsLost | apps/preview/lisa-preview.js:1047-1056 | a page moved while qpdf runs is back in its place after the reload |
| PreviewExport.Folder.Create | apps/preview/lisa-preview.js:833-849 | an export never replaces a file: a taken name is skipped |
| PreviewExport.Export.Tick | apps/preview/lisa-preview.js:931-969 | one tick deals with the next page of the snapshot and counts it once |
| PreviewExport.TickDoes | apps/preview/lisa-preview.js:931-969 | one tick deals with the next page: done exactly when its name was free and it was written, skipped exactly when the name was taken; no other file changes |
| PreviewExport.EveryInterleaving | apps/preview/lisa-preview.js:931-969 | over every interleaving of ticks, edits, reopened documents and other programs' files: one page a tick up to the page count, done + skipped + failed is the ticks taken, existing files unchanged, file i shows position i of the display as it was at the start |
| PreviewExport.WindowGoesOn | apps/preview/lisa-preview.js:535-542 | the window meanwhile takes every edit: its display is the old one with the edits done to the pages |
| PreviewExport.FilesOnlyAppear | apps/preview/lisa-preview.js:833-849 | no file is ever changed once it exists |
| Notes.NotesApp.MaybeSave | apps/notes/lisa-notes-app.js:428-447 | begins a save or waits for the running one |
| Notes.NotesApp.WriteEditorState | apps/notes/lisa-notes-app.js:459-475 | sends a create for a draft worth saving, an update for a changed note, nothing otherwise |
| Notes.NotesApp.Replied | apps/notes/lisa-notes-app.js:468-479 | the object the save started with takes the id and the saved words |
| Notes.NotesApp.Resumed | apps/notes/lisa-notes-app.js:438-447 | the owner clears `_saving`, then its caller goes on or gives up |
| Notes.NotesApp.RenderList | apps/notes/lisa-notes-app.js:268-295 | a selected note missing from the list becomes a draft if dirty, else is deselected |
| Notes.NotesApp.Press | apps/notes/lisa-notes-app.js:154-172 | Ctrl+S, a row click, New and Close as steps |
| Notes.ClosesExactly | apps/notes/lisa-notes-app.js:154-171 | in every run the window closes exactly when a save made for a close has ended well, or at a close asked for while another is held or a discard stands; a close is held exactly while its one call is in flight |
| Notes.DiscardExactly | apps/notes/lisa-notes-app.js:125-171 | in every run a standing discard is exactly a failed close with nothing saved and nothing written since |
| Notes.FailedCloseKeeps | apps/notes/lisa-notes-app.js:154-171 | after a failed save for a close the window is open with the words in the editor, and stays so until a close is asked for again, which closes at once exactly while nothing was saved or written since |
| Notes.ResumeDoes | apps/notes/lisa-notes-app.js:318-400 | what the end of a save lets happen: after a failed one note, words and requests stay; after a good one the caller's own next request or a blank draft |
| Notes.LoadedDoes | apps/notes/lisa-notes-app.js:337-370 | a note that arrives is shown once, and the list is asked for again if leaving the one before wrote something |
| Notes.ListedDoes | apps/notes/lisa-notes-app.js:213-295 | a list that arrives is the one searched; the note on the screen stays unless it is gone, and then its unsaved words go on as a draft |
| Notes.ClickShows | apps/notes/lisa-notes-app.js:305-370 | a row click ends with the note that was clicked on the screen, as it was read |
| Notes.PressDoes | apps/notes/lisa-notes-app.js:154-172 | every press makes a call that saves the words in the editor or waits for the running save, except a click on the shown note and a close that closes at once |
| Notes.RefreshDoes | apps/notes/lisa-notes-app.js:46-76 | asking for the list and searching in it bring up no draft and keep unsaved words |
| Notes.SingleFlightAlways | apps/notes/lisa-notes-app.js:428-479 | in every interleaving at most one create or update is outstanding, it belongs to the call `_saving` names, it never writes an unreadable note, and no waiting call is stuck |
| Notes.ClearedByOwner | apps/notes/lisa-notes-app.js:428-447 | `_saving` is cleared only by the call that set it |
| Notes.OneCreatePerDraft | apps/notes/lisa-notes-app.js:428-479 | with truthful replies and lists no older than the edited note, a draft is created at most once and everything sent for it later is an update of that id |
| Notes.DemotedExactly | apps/notes/lisa-notes-app.js:268-295 | a drawn list turns the edited note into a draft if and only if it lacks the id while the editor is dirty, and the next save is then a create |
| Notes.SearchDuplicatesDraft | apps/notes/lisa-notes-app.js:46-49 | counterexample: after a first save, typing on and searching before the new list arrives makes the next Ctrl+S create the note again |
| Notes.CleanMeansStored | apps/notes/lisa-notes-app.js:449-479 | with no outside writer and truthful failures, on every run of level steps, a clean readable note with no write outstanding is stored exactly as on screen |
| Notes.LevelIsNeeded | apps/notes/lisa-notes-app.js:337-370 | no less will do: any step that is not level is followed, within two undisturbed steps, by a clean note whose words the daemon does not hold |
| Notes.SecondReadHidesSave | apps/notes/lisa-notes-app.js:72-76 | the failing run: with two reads of a note pending, the second brings back the words from before a save, and the clean note on screen is not what is stored |
| Notes.TypedDuringWriteStaysDirty | apps/notes/lisa-notes-app.js:459-479 | after a reply the note is clean if and only if the editor still holds what was sent |
| Sessions.RestoreLosesNothing | shell/assistant/lib/sessions.js:359-385 | a restore lists exactly the stored index, the readable records and what is open |
| Sessions.StoredWhole | shell/assistant/lib/model.js:137-146 | exactly the turns with text are stored, and a conversation is stored whole if and only if none is empty |
| Sessions.StoredInOrder | shell/assistant/lib/sessions.js:149-158 | turns are stored in the order they were said |
| Sessions.ListingParts | shell/assistant/lib/sessions.js:211-245 | taking out an id, what another listing has, or other modes leaves the other entries as and where they were |
| Sessions.ByActivityStable | shell/assistant/lib/sessions.js:334-345 | entries of one moment keep their order in the sort |
| Sessions.MergeEntries | shell/assistant/lib/sessions.js:334-339 | a merge is in activity order and holds the first listing whole and of the second what the first lacks |
| Sessions.StoredEntryWins | shell/assistant/lib/sessions.js:359-385 | for an id both know, the stored entry is kept and the open one dropped |
| Sessions.RowsShowOneMode | shell/assistant/lib/sessions.js:235-254 | the rows are one mode's, all of it, and always include the open conversation |
| Assistant.IndexWaitsForRead | shell/assistant/lisa-assistant.js:1691-1697 | until a read of the namespace succeeds no index is written and the stored one is untouched; from then on nothing is pending and the last index written is the listing |
| Assistant.DeferredWriteFlushed | shell/assistant/lisa-assistant.js:1511-1532 | the first successful read writes a pending index once, merged, and nothing else unless the old conversation is migrated; a failed read writes nothing and keeps it pending |
| Assistant.ListedUntilRemoved | shell/assistant/lisa-assistant.js:522-554 | from any moment a listed conversation stays listed, and in every index written since, unless deleted or answered as unusable |
| Assistant.StoredConversationSurvives | shell/assistant/lisa-assistant.js:1511-1697 | a conversation in the stored index is in it at the end of every run that does not delete it or get an unusable record for it, whatever reads and writes fail |
| Assistant.OpenConversationInMode | shell/assistant/lisa-assistant.js:425-447 | in every run the open conversation is of the active mode, and the rows shown are that mode's |
| Assistant.MidRunSwitchExactly | shell/assistant/lisa-assistant.js:522-554 | while a run is in flight only the answer to an earlier open replaces the conversation on screen |
| Assistant.RunKeepsConversation | shell/assistant/lisa-assistant.js:522-554 | with no open pending when a run starts, the conversation stays until the run has finished |
| Assistant.LateOpenLosesTurn | shell/assistant/lisa-assistant.js:929-956 | when an open lands mid-run the finished run is filed under the conversation just shown and the asking one is not written |
| Assistant.FinishedRunIsFiled | shell/assistant/lisa-assistant.js:1609-1623 | a finished run writes its record first, with every turn that has text, then the listing with it at the head, or defers the listing; the record is the whole conversation if and only if no turn is empty |
| Assistant.RunTellsWhole | shell/assistant/lisa-assistant.js:918-956 | with nothing on its way to be opened, whatever happens between sending and the end of the run, the conversation grows by the question and everything the run said, in order, with the reason of a bad end, and that is what is filed |
| Assistant.SendDoes | shell/assistant/lisa-assistant.js:1172-1254 | a question starts a run, or is filed with the reason it could not; without words or mid-run nothing is sent |
| Assistant.OpenShows | shell/assistant/lisa-assistant.js:522-554 | a clicked conversation is read and shown as it is stored, unless it is shown already or a run is in flight |
| Assistant.GotDoes | shell/assistant/lisa-assistant.js:522-554 | an answer counts once: a failed read leaves everything, a record is shown, an unusable one is taken off the listing |
| Assistant.NewDoes | shell/assistant/lisa-assistant.js:425-447 | New and a mode switch show what they should and touch neither listing nor store |
| Assistant.DeleteDoes | shell/assistant/lisa-assistant.js:822-854 | a deletion writes the tombstone and then the listing, and replaces the conversation on the screen by a blank one while the most recent of its mode is read |
| Assistant.RestoreDoes | shell/assistant/lisa-assistant.js:1511-1532 | once the listing is read the most recent conversation is asked for, if nothing has been said yet |
| Assistant.LegacyTakenOver | shell/assistant/lisa-assistant.js:1539-1562 | the old single conversation becomes a listed chat and only then its key is cleared |
| Assistant.TombstoneOnlyByDelete | shell/assistant/lisa-assistant.js:822-847 | a record is tombstoned only by deleting a listed conversation with the listing known, never the one a run streams into |
| Assistant.AssistantWindow.RestoreSessions | shell/assistant/lisa-assistant.js:1511-1532 | the restore after its read, up to opening the most recent conversation |
| Assistant.AssistantWindow.SessionRead | shell/assistant/lisa-assistant.js:529-554 | a failed read changes nothing, an unusable record is unlisted, a record is shown |
| Assistant.AssistantWindow.DeleteSession | shell/assistant/lisa-assistant.js:822-854 | delete, with its two refusals and the conversation that takes its place |
| Assistant.AssistantWindow.OnFinished | shell/assistant/lisa-assistant.js:929-956 | the end of a run |
| Assistant.AssistantWindow.ChangeMode | shell/assistant/lisa-assistant.js:425-447 | a mode switch, refused mid-run |
| PkgArray.ScanArray | os/repo-tools/check-fork-derivation.py:83-103 | the balance scan keeps exactly what the specification keeps |
| PkgArray.ReadsPrinted | os/repo-tools/check-fork-derivation.py:83-105 | scanning a printed array gives its entries in order, whatever comments are between them and whatever follows the closing parenthesis |
| PkgArray.ArrayRoundTrip | os/repo-tools/check-fork-derivation.py:68-105 | reading a field's array back gives its words if and only if no quoted word begins or ends with a quote character |
| ForkCheck.Check | os/repo-tools/check-fork-derivation.py:122-184 | nothing is found if and only if the derivation is faithful; differing fields and checksums are named exactly |
| ForkCheck.PassingKeepsPairs | os/repo-tools/check-fork-derivation.py:151-184 | a passing fork keeps upstream's (source, checksum) pairs index for index at its head and checks every source of its own |
| ForkCheck.FaithfulLists | os/repo-tools/check-fork-derivation.py:121-190 | of fields that are arrays: passing is that what must match matches, nothing of upstream's is dropped, its sources and checksums stand unchanged at the head of ours, and every source has its checksum |
| ForkCheck.ChangedChecksumFound | os/repo-tools/check-fork-derivation.py:173-183 | a changed checksum for an upstream source makes the derivation unfaithful, and the findings of the check name its index |
| RunBlocks.RunBlocks | os/repo-tools/check-workflow-quoting.py:33-91 | the scan yields the specified scripts with their lines |
| RunBlocks.ReadBody | os/repo-tools/check-workflow-quoting.py:66-81 | the body of a block, up to the line that ends it |
| RunBlocks.HeadExactly | os/repo-tools/check-workflow-quoting.py:46-51 | a line has an entry exactly when `run:` stands behind its leading blanks, or behind a dash and blanks there; the entry is what follows, stripped |
| RunBlocks.StyleExactly | os/repo-tools/check-workflow-quoting.py:52 | a block opens exactly with a bar or an angle, then at most a chomping mark, blanks and a comment |
| RunBlocks.WorkflowRoundTrip | os/repo-tools/check-workflow-quoting.py:33-91 | the scan of a written workflow finds its scripts in order at their lines and nothing inside a block again |
| RunBlocks.LiteralRoundTrip | os/repo-tools/check-workflow-quoting.py:64-91 | a literal block comes back as written, up to blank lines' contents, if and only if its first non-blank line does not begin with a blank; otherwise every line loses that many characters |
| RunBlocks.QuotedRoundTrip | os/repo-tools/check-workflow-quoting.py:55-63 | single- and double-quoted scalars read back for every text |
| RunBlocks.FoldsExactly | os/repo-tools/check-workflow-quoting.py:82-89 | the folding of a block is that of YAML 1.2.2, chomping apart, if and only if the body is one line, or has no empty line at either end, no two in a row and no line beginning with a blank |
| RunBlocks.FoldsInPairs | os/repo-tools/check-workflow-quoting.py:82-89 | what the code makes of any body: an empty line between others is a newline, every other break a blank |
| RunBlocks.DeeperLineIsJoined | os/repo-tools/check-workflow-quoting.py:82-89 | a body on which they differ: a deeper line between two others is joined by blanks where YAML keeps both breaks |
| AdrIndex.RegenerateKeeps | os/repo-tools/build-adr-index.py:399-401 | a run changes nothing outside the sentinels |
| AdrIndex.RegenerateExactly | os/repo-tools/build-adr-index.py:395-401 | the complaint exactly when a sentinel is missing; written exactly when the closing one stands behind the first opening one, and then the text before, the new region and the text behind the first closing one after it |
| AdrIndex.RegeneratedOnce | os/repo-tools/build-adr-index.py:395-416 | a second run writes the same text, and `--check` passes, if and only if the rendered middle does not hold the closing sentinel; if it does the file grows with every run |
| AdrIndex.IndexSettlesExactly | os/repo-tools/build-adr-index.py:311-340 | that is so if and only if no cell of any row holds the closing sentinel |
| AdrIndex.EndIsSentinel | os/repo-tools/build-adr-index.py:93 | the generator's closing sentinel meets the conditions used |
| AdrIndex.EndOnlyBeforeBegin | os/repo-tools/build-adr-index.py:396-400 | with the closing sentinel only before the opening one the complaint is not made and the split fails |
| AdrIndex.ParseClaims | os/repo-tools/build-adr-index.py:135-176 | the claims under the one head, an error for two heads, an empty block or a bad item |
| AdrIndex.ParseFile | os/repo-tools/build-adr-index.py:125-176 | the same with the generator's own patterns, which are of the kind the parser needs |
| AdrIndex.ItemExactly | os/repo-tools/build-adr-index.py:125 | the item pattern, exactly: blanks, a dash and a blank, a body |
| AdrIndex.BodyExactly | os/repo-tools/build-adr-index.py:125 | a body is anything but empty in backquotes with a note behind it or nothing |
| AdrIndex.NoteExactly | os/repo-tools/build-adr-index.py:125-163 | a note is what stands behind a dash of either kind, stripped |
| AdrIndex.ItemLineBack | os/repo-tools/build-adr-index.py:125-166 | an item line written for a claim is read as that claim by the item pattern |
| AdrIndex.ClaimsBack | os/repo-tools/build-adr-index.py:135-176 | a file with one written block of claims reads back as those claims in order |
| PackagePaths.Invert | os/repo-tools/check-package-paths.py:257-260 | the inverted index lists for each path exactly its owners |
| PackagePaths.CheckClean | os/repo-tools/check-package-paths.py:225-300 | 0 if and only if there are at least two packages, none empty, and every pair sharing a normalised path has a declared conflict |
| PackagePaths.CleanExactly | os/repo-tools/check-package-paths.py:225-300 | clean in the words of the lists: whenever two packages list one path, leading slashes aside, one of them names the other as a conflict |
| PackagePaths.RelativeIs | os/repo-tools/check-package-paths.py:257-260 | the slashes in front of a path go and nothing else |
| PackagePaths.Check | os/repo-tools/check-package-paths.py:225-300 | the exit code, and tables listing for every pair the paths both own |
| PackagePaths.CountsIntersection | os/repo-tools/check-package-paths.py:262-274 | the paths collected for a pair are its intersection, each once |
| PackagePaths.TablesPartition | os/repo-tools/check-package-paths.py:262-274 | declared and undeclared partition the overlapping pairs, with counts equal to the intersections |
| PackagePaths.StripsConstraint | os/repo-tools/check-package-paths.py:104-109 | a conflict is recorded under its bare name for every constraint operator |
| DesktopInventory.ContractCovers | os/repo-tools/check-desktop-inventory.py:728-766 | a fork that passes provides, conflicts with and replaces the same foreign names |
| DesktopInventory.Take | os/repo-tools/check-desktop-inventory.py:696-723 | the inventory built from the packages in order and the records of other repositories |
| DesktopInventory.InventoryTabled | os/repo-tools/check-desktop-inventory.py:696-723 | where each name stands by packages and tables alone: fork, ours, port or stray, built, and replaced |
| DesktopInventory.LastClaimOnRecord | os/repo-tools/check-desktop-inventory.py:707-723 | of several forks that claim a stock name the last is on record, and another repository does not displace it |
| DesktopInventory.CheckRepo | os/repo-tools/check-desktop-inventory.py:726-897 | no finding if and only if the tree is sound under all repository rules |
| DesktopInventory.CheckManifest | os/repo-tools/check-desktop-inventory.py:900-993 | no finding if and only if the image is sound on its lane; stock names are reported exactly |
| DesktopInventory.ForkDelivered | os/repo-tools/check-desktop-inventory.py:925-963 | for every recorded (stock, fork) pair a declared fork is installed and its stock name absent |
| DesktopInventory.ClaimDelivered | os/repo-tools/check-desktop-inventory.py:699-723 | for a fork's own claims the same, except exactly when a later fork's claim on the name is the one on record and the lane declares the stock name instead of it |
| DesktopInventory.Buckets | os/repo-tools/check-desktop-inventory.py:996-1019 | each bucket lists its installed names in order |
| DesktopInventory.BucketsPartition | os/repo-tools/check-desktop-inventory.py:996-1019 | every installed name is in exactly one bucket and the sizes add up |
| DesktopInventory.BucketsTabled | os/repo-tools/check-desktop-inventory.py:996-1019 | which bucket an installed name is in, by packages and tables alone, in the order the rules are tried |
| DesktopInventory.LostOnlyByDeclaration | os/repo-tools/check-desktop-inventory.py:996-1019 | in a passing image the "fork lost" bucket holds only names the lane declares in place of an undeclared fork |
| PkgScopes.Join | os/repo-tools/check-desktop-inventory.py:409-430 | logical lines, as specified |
| PkgScopes.LiteralJoined | os/repo-tools/check-desktop-inventory.py:409-430 | an array literal over many lines is one logical line and leaves no trace on what follows |
| PkgScopes.ContinuationJoined | os/repo-tools/check-desktop-inventory.py:409-430 | a line continued by backslashes is one logical line of its pieces, numbered where it begins |
| PkgScopes.LeftOver | os/repo-tools/check-desktop-inventory.py:428-429 | what the last lines leave unfinished is a logical line of its own if it says anything |
| PkgScopes.ReadScopes | os/repo-tools/check-desktop-inventory.py:504-527 | every package's arrays are what the scope rules leave |
| PkgScopes.OverrideByOrder | os/repo-tools/check-desktop-inventory.py:504-527 | a package function overrides the global scope exactly as far as text order goes: a later global assignment wins |
| PkgScopes.UsualLayout | os/repo-tools/check-desktop-inventory.py:504-527 | with globals first, makepkg's rule: a package's own array if it sets one |

## Left out

- The widget toolkit, the compositor, D-Bus and subprocesses: their signals and replies are events, their answers parameters.
- The file system and globbing: a source word resolves through a function; so do `shlex` and the scalar reader of a PKGBUILD.
- Installs.Discovery.Visit: does not model the printed origin line numbers, which are a parameter of each visit.
- Destinations.DestinationRoundTrip: does not model a newline at the end of a destination, which the pattern's `$` would let pass.
- EgressGate.RunGate: which files under os/packages are systemd fragments is given (`Tree.files`, `Tree.fragment`), and the policy tables are sets.
- Shipping.TreeLandings: which files an image tree holds is given, symbolic links left out.
- ShellWalk.WalkPrinted: a loop that opens or closes behind another keyword of the same statement (`do for …`) is not well-formed here, and the patterns of a `case` have no node; `local NAME=value` and commands inside `$(…)` have no meaning.
- ExecStart.InetAllowed: lists mixing allow and deny entries are read as the code reads them; nothing is claimed about what systemd would do with them.
- Notes.OneCreatePerDraft: assumes each create is answered with its id, a failed request was not carried out, and no list shown is older than the note being edited; `Notes.SearchDuplicatesDraft` shows the last one is needed.
- Notes.CleanMeansStored: assumes no other program writes and a failed request was not carried out.
- Notes: deleting and restoring a note, and grouping, searching and previews of the list.
- Assistant: attachments, model lists and workspaces; a hand-off is a new conversation followed by a send, and a second hand-off before the first is sent is not modelled.
- Assistant.StoredConversationSurvives: assumes no other program writes the namespace and a successful read answers with what is stored.
- Sessions: JSON text; a stored value is taken as parsed, and an unparseable one as an empty index or an unusable record.
- Preview: what annotations draw, the transient view rotation, image files and text export.
- Preview.Window.SaveFinished: the exact condition is stated for a document of different pages; equal pages can change places unseen.
- PreviewExport.EveryInterleaving: marks drawn on the document during the export are not modelled.
- Glass: geometry, clips and opacity of a backer.
- PkgArray.ArrayRoundTrip: bare words hold no quotes, and every parenthesis in one is closed there; and and `_strip_comments` has already been applied or leaves the text alone.
- RunBlocks.FoldsExactly: compares the text before chomping, that is, without a final line break.
- RunBlocks.LiteralRoundTrip: chomping marks are accepted as the code accepts them, that is, ignored.
- AdrIndex.IndexSettlesExactly: the fixed lines of the table (heading, tallies) are a parameter that must not hold the sentinel.
- PackagePaths.CheckClean: package names stand as their positions in string order; fetching and parsing an index is not part of this model.
- DesktopInventory.Take: packages come in name order; how lanes, manifests and the release workflow are read is not part of this model.
- DesktopInventory.CheckRepo: findings are names; their wording is not modelled.
- PkgScopes.ReadScopes: variables in values are already expanded, and the pkgbase complaint is not modelled.
- Mail, Surfer, Launcher, Desktop, the token and keymap generators and the single-file gates: they would add easy members only.
