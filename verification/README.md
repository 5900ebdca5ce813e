# Verified models of the Mimi compiler

Dafny models of nine parts of the Mimi compiler whose correctness claims span several functions, whole runs or
every input, with proofs of those claims. One module, or a few, stands for each source file.

- **Session types** (`Session`, `SessionEquality`, `SessionChannels`, `SessionCycles`): dualisation, resolution over
  possibly cyclic declarations, the comparison of session types, the residual step function, the three-colour cycle
  detector. The main results are that resolution is exactly finite unfolding, that a session pair is safe and complete
  in every interleaving of its two ends, and that declared names resolve exactly when their references are acyclic.
- **Float-check convergence** (`FloatIr`, `FloatChain`, `FloatAcceptance`, `FloatConvergence`): the pass that deletes
  NaN and infinity checks on values whose non-finiteness reaches a later check. A check is deleted exactly when every
  use of its value passes non-finiteness on, on every machine, and straight-line code keeps its outcome when the values
  of deleted checks are consumed.
- **Scanner and formatter** (`SourceScan`, `FmtSpacing`, `FmtSpacingLaws`, `FmtRegions`, `FmtFile`, `FmtIndent`,
  `FmtFileRegions`, `FmtStrings`, `FmtFileStrings`, `FmtCommentFlag`, `FmtLiteralLines`, `FmtStringInputs`): the region
  scanner, the spacing rewriter and the whole-file formatter with its separate comment tracker. Lines are set at
  their nesting depth, and spaces in code where they fall due. Where every string literal closes on its line, formatting changes nothing but whitespace outside literals; where one does not, the literal is kept exactly when its
  lines already stand as the formatter sets them. When the comment flag is right is characterised whatever the strings.
- **Source registry** (`SourceRegistry`): interning, conflicts and atomic merging, over every history of operations.
- **Flow expansion** (`FlowMatrix`, `FlowInPlace`, `FlowExpansion`, `FlowRuns`, `FlowDefaults`, `FlowSurvival`): the
  Fault state and system verbs injected into a flow, and the generated bodies run as programs: persistent fields survive
  faults, and all others start over from the zero of their type.
- **Runtime cache** (`IncludedSources`, `CompilerFrame`, `Bytes`): the include worklist and the environment frame.
- **Actor mailbox** (`ActorAbi`, `ActorMailbox`, `ActorResults`, `ActorLowering`, `ActorLayout`, `Bytes`): packing and
  unpacking over one byte blob, what an argument arrives as, results through the 8-byte slot, and the lowering and
  layout of declared types that decide which results fit.
- **Scope bookkeeping** (`ScopeStacks`, `ScopePaths`, `ScopeDefers`, `ScopeOrder`): the release and defer stacks, and what
  every path through the emitted code does, and in which order.
- **Generic recovery** (`MonoRecover`): bindings recovered from argument types.

Code that works step by step is modelled as methods and classes, each proved equal to a function whose properties are
then stated as lemmas. Code made of expressions is modelled as functions.

Where a claim turned out not to hold for all inputs, the code is kept as it is, a lemma gives a concrete failing input
or the failing inputs in general, and another gives the condition under which the claim holds:

- `session_eq` never ends on the dual of a bare name against a term that is not a dual
  (`SessionEquality.BareDualLoops`; exactly when it ends: `SessionEquality.StopsExactly`, and
  `SessionEquality.NormalFormsStopExactly` for terms in dual-normal form).
- The float pass drops a check whose value is only stored into a cell with an unused load
  (`FloatConvergence.DeadLoadLosesTrap`; exactly when the outcome is kept: `FloatConvergence.OutcomeKeptExactly`).
- The formatter changes string literals that span lines. The lexer takes a newline inside a string literal as part of
  it (`src/lexer/scan.rs:203-206`), but the formatter trims, re-spaces and indents the continuation line like code
  (`FmtStringInputs.FormattingChangesString`). If the first line that starts inside a string does not stand as the
  formatter sets it, the text changes whatever else the file holds (`FmtLiteralLines.FirstStringLineHasToStand`). That
  all lines stand is the exact condition (`FmtLiteralLines.FormattingKeepsStandingExactly`) when the lines that start
  inside a string are tame: no comment opener on them, and neither a quote nor a slash behind the string. Without that
  it is not enough (`FmtStringInputs.SecondStringOnLineChanges`).
- On such a line the formatter's comment tracker can take the string's text for an open comment
  (`FmtStringInputs.OpenerInStringBreaksFlag`; exactly when it does, whatever the strings:
  `FmtCommentFlag.FlagRightExactly` and, read off the source, `FmtCommentFlag.FlagRightExactlyOnSource`).
- The spacing rewriter takes away one space behind an opening bracket, so that `(  x` becomes `( x`, although the comment
  at `src/fmt.rs:238` says that the result is tight there (`FmtSpacingLaws.BracketIsNotTight`; exactly:
  `FmtSpacingLaws.BracketTakesOneSpace`).
- Expansion doubles a `peer_fault` when a state is declared twice (`FlowExpansion.TwiceDeclaredIsDoubled`; exactly
  when it does: `FlowExpansion.DistinctPairsStayDistinct`). Expansion runs in the parser (`src/parser/mod.rs:295`),
  before the checker rejects duplicate states with E0402 (`src/core/checker/items.rs:1983-1992`).
- An actor result whose type is lowered to an array, a fixed-size array or a union, has no arm of its own in the
  dispatch (`src/codegen/actors.rs:580`) nor in the caller (`src/codegen/actors.rs:2007`), which loads a zero. Every
  other result that dispatch does not refuse as too large arrives (`ActorLowering.ArrayIsLost` and
  `ActorLowering.UnionIsLost`; exactly when: `ActorLowering.DeclaredResultArrives`).
- A return in a nested block skips the deferred blocks of the blocks around it, although the comment at
  `src/codegen/block.rs:1387` says that they always run (`ScopeDefers.EarlyReturnSkipsDefer`; exactly when:
  `ScopeDefers.DefersRunExactlyWhenCovered`).

`dafny verify dfyconfig.toml` verifies the project.

## Model

| member | source | states |
|---|---|---|
| Session.DualOfNegates | src/session.rs:44-59 | dualisation negates what a term means, names and nested `dual` included |
| Session.DualOfInvolution | src/session.rs:44-59 | dualising twice keeps the meaning of every term |
| Session.GroundIsItsMeaning | src/session.rs:44-59 | on fully expanded protocols the meaning is the term itself and `dual` is an involution |
| Session.MeaningFlips | src/session.rs:44-59 | on name-free terms flipping the polarity is taking the dual of the normal form |
| Session.NameSet.constructor | src/session.rs:70-74 | a fresh set of names is empty |
| Session.NameSet.Insert | src/session.rs:70-111 | inserting into `visiting` adds the name and tells whether it was new |
| Session.NameSet.Remove | src/session.rs:70-111 | removing takes out exactly that name |
| Session.ResolveInner | src/session.rs:75-111 | the recursive resolver ends on cyclic environments, returns the resolution relative to the names being visited, and restores `visiting` on every exit |
| Session.ResolveSession | src/session.rs:70-74 | the entry point returns the resolution with nothing being visited |
| Session.ResolveInUnfolds | src/session.rs:75-111 | a resolution is an unfolding no deeper than the number of unvisited names |
| Session.UnfoldingResolves | src/session.rs:75-111 | a finite unfolding is found, provided no name being visited unfolds as shallowly |
| Session.ResolveIsUnfolding | src/session.rs:70-111 | `Some(r)` exactly when `r` is the finite unfolding of the term, in every environment |
| Session.ResolvedIsGround | src/session.rs:70-111 | a resolution is free of names and `dual`; `None` means there is no finite unfolding |
| Session.ResolveCommutesWithDual | src/session.rs:44-111 | resolving the dual is the dual of resolving, failures included |
| SessionEquality.AnswerIsAgreement | src/session.rs:211-227 | whenever the comparison answers, its answer is the agreement of the two normal forms |
| SessionEquality.StopsExactly | src/session.rs:211-227 | the comparison ends if and only if it never meets the dual of a bare name on one side only |
| SessionEquality.NameFreeEquality | src/session.rs:211-227 | on name-free terms the comparison ends and holds exactly when the dual-normal forms agree up to payload compatibility |
| SessionEquality.EqualityWithNames | src/session.rs:211-227 | the comparison ends with the agreement of the meanings on all terms in which no name stands under a `dual` |
| SessionEquality.NormalFormsStopExactly | src/session.rs:211-227 | on terms in dual-normal form the comparison ends if and only if, behind the same actions, the dual of a name only ever faces the dual of a name |
| SessionEquality.BareDualLoops | src/session.rs:211-227 | the dual of a name compared with a term that is not a dual never ends |
| SessionChannels.ApplyActionFollowsMeaning | src/session.rs:257-282 | each action succeeds exactly when the residual's meaning starts with it and yields its payload and continuation; any other fails with the error of its own kind, showing a residual of the same meaning, or with `AlreadyEnded` after the end |
| SessionChannels.PairEndsAreDual | src/session.rs:330-356 | the two ends of a session pair are tracked with dual residuals, or neither is tracked |
| SessionChannels.TrackedExactly | src/session.rs:330-356 | a channel is tracked if and only if its annotation names a declared session, plain or under `dual` |
| SessionChannels.ResidualFollowsDeclaration | src/session.rs:330-356 | its residual means what the session unfolds to, or the declared body where there is no finite unfolding, with the polarity of the end |
| SessionChannels.LoMovesKeepBalance | src/session.rs:257-282 | sending and receiving keep "one residual is the dual of the other, prefixed by the messages in flight" |
| SessionChannels.RunStaysBalanced | src/session.rs:257-282 | that invariant holds at every state of every interleaving |
| SessionChannels.PairIsSafe | src/session.rs:257-356 | in every interleaving a waiting message has exactly the type the residual demands, and no end may close while a message waits |
| SessionChannels.StuckMeansEnded | src/session.rs:257-282 | a balanced name-free pair can communicate if and only if not both ends have ended, and ends with empty queues |
| SessionChannels.PairCompletes | src/session.rs:257-356 | a resolvable pair goes on until both ends ended, having delivered exactly the protocol's payloads in order |
| SessionChannels.PairTerminates | src/session.rs:257-356 | every run of communications is finite and has full length exactly when both ends ended |
| SessionCycles.OrderedIsAcyclic | src/session.rs:135-208 | a finishing order whose edges lead backwards rules out closed walks |
| SessionCycles.Position | src/session.rs:135-208 | the index of a node on the path, or none |
| SessionCycles.CycleFromPath | src/session.rs:135-208 | an edge back to a node on the path closes a simple cycle |
| SessionCycles.PushKeeps | src/session.rs:135-208 | visiting a white node keeps the colour, stack and path invariant |
| SessionCycles.SkipKeeps | src/session.rs:135-208 | passing over an edge to a finished node keeps the invariant |
| SessionCycles.PopKeeps | src/session.rs:135-208 | finishing a node keeps the invariant |
| SessionCycles.Explore | src/session.rs:135-208 | the inner loop ends with everything reachable from the start finished, or with a real simple cycle |
| SessionCycles.DetectCycle | src/session.rs:135-208 | over any closed graph: a reported cycle is a closed walk with otherwise distinct nodes, silence means the graph is acyclic |
| SessionCycles.CollectReferences | src/session.rs:114-124 | the names a term refers to are added to the set |
| SessionCycles.BuildReferences | src/session.rs:135-208 | the edge map holds exactly the references between declarations |
| SessionCycles.DetectSessionCycle | src/session.rs:135-208 | soundness and completeness for the references of an environment |
| SessionCycles.CycleDoesNotResolve | src/session.rs:70-208 | every name on a cycle of references resolves to `None` |
| SessionCycles.ResolvesIffAcyclic | src/session.rs:70-208 | with every reference declared, all names resolve if and only if the references are acyclic |
| FloatChain.CallsTrap | src/codegen/float_chain.rs:252-274 | the block scan tells whether the block calls the trap |
| FloatChain.RecogniseCheck | src/codegen/float_chain.rs:144-200 | the recognition of one branch as the end of a check, with the trap in either successor |
| FloatChain.CollectChecks | src/codegen/float_chain.rs:102-200 | the recognised check points and the set of checked values |
| FloatChain.PrivateLoads | src/codegen/float_chain.rs:377-438 | the scan of a cell's uses gives its loads, or none when some use lets the cell escape |
| FloatChain.FeedsChain | src/codegen/float_chain.rs:377-438 | whether every use of a load belongs to the chain |
| FloatChain.StoresIntoForwardableAlloca | src/codegen/float_chain.rs:377-438 | whether the value is stored into a private cell whose loads all feed the chain |
| FloatChain.IsRelay | src/codegen/float_chain.rs:280-309 | a check is dropped exactly when its value has real uses and each hands its non-finiteness on |
| FloatChain.ClassifyChecks | src/codegen/float_chain.rs:102-142 | exactly the relay checks are listed for rewriting |
| FloatChain.Function.constructor | src/codegen/float_chain.rs:102-142 | a function holds the given instructions |
| FloatChain.Function.Converge | src/codegen/float_chain.rs:102-142 | the pass rewrites exactly the dropped branches and says whether it did; which those are is stated without the pass in `FloatAcceptance` |
| FloatChain.Function.RewriteBranches | src/codegen/float_chain.rs:102-142 | each listed conditional branch becomes a branch to its ok block, nothing else changes |
| FloatConvergence.AcceptedPositionsAreExact | src/codegen/float_chain.rs:326-344 | the positions of an arithmetic operation from which a non-finite operand gives a non-finite result on every machine |
| FloatAcceptance.ChainOpsAreExact | src/codegen/float_chain.rs:311-371 | where library functions have one argument, a use is a chain operation if and only if its result is checked and a non-finite operand gives a non-finite result on every machine and for all other operands; the fabs intrinsics apart, the table of functions is exact too |
| FloatAcceptance.TrapBlocksAreExact | src/codegen/float_chain.rs:252-274 | a block calls the trap if and only if some instruction before its terminator does |
| FloatAcceptance.RecognitionIsExact | src/codegen/float_chain.rs:144-250 | a branch is recognised if and only if it is on a value unordered with itself or a call's result equal to something, in either order, to a block that calls the trap, with the parts named |
| FloatAcceptance.ForwardingIsExact | src/codegen/float_chain.rs:373-438 | a store forwards the value if and only if its cell is read and written by nothing else, constants apart, and every use of every load takes the value |
| FloatAcceptance.RelaysAreExact | src/codegen/float_chain.rs:276-309 | a check is a relay if and only if its value is used outside the check and each such use takes it or forwards it |
| FloatAcceptance.ConvergedChecks | src/codegen/float_chain.rs:102-142 | the pass turns a check into a branch to its ok block if and only if its value is passed on by every use, in terms of machines and use lists alone |
| FloatAcceptance.ConvergedElsewhere | src/codegen/float_chain.rs:102-142 | no other instruction changes |
| FloatConvergence.SafeLibmPropagates | src/codegen/float_chain.rs:353-371 | every listed library function maps non-finite arguments to non-finite results |
| FloatConvergence.ChainOpPropagates | src/codegen/float_chain.rs:326-371 | a chain operation on a non-finite operand has a non-finite result |
| FloatConvergence.CheckTestsFiniteness | src/codegen/expr/operator.rs:1137-1223 | the condition of an emitted check holds exactly when its value is non-finite |
| FloatConvergence.FiringIsCovered | src/codegen/float_chain.rs:102-142 | whenever a check fires, a check that is kept fires too, on the same value or on one computed later |
| FloatConvergence.RunFrom | src/codegen/float_chain.rs:102-142 | after any removal of checks, straight-line code traps exactly when a kept check fires |
| FloatConvergence.ConvergencePreservesOutcome | src/codegen/float_chain.rs:102-142 | straight-line code whose dropped values are consumed traps if and only if the original does, and otherwise computes the same values, on every machine |
| FloatConvergence.PureConvergencePreservesOutcome | src/codegen/float_chain.rs:102-142 | code without stores needs no further condition |
| FloatConvergence.DroppedTogether | src/codegen/float_chain.rs:280-309 | the checks of one value are all dropped or all kept |
| FloatConvergence.OutcomeKeptExactly | src/codegen/float_chain.rs:102-142 | on any run of straight-line code where only one value is non-finite at its checks, the pass keeps the outcome if and only if it keeps that check; a dropped one was not consumed, and the converged code returns where the original traps |
| FloatConvergence.DeadLoadLosesTrap | src/codegen/float_chain.rs:377-438 | a forwarded value whose load is unused loses its trap: concrete code and input on which original and converged code differ |
| SourceScan.Scan | src/source_scan.rs:54-156 | the scanner loop computes the character automaton's regions |
| SourceScan.ScannedChars | src/source_scan.rs:54-156 | the scan keeps every character in place |
| SourceScan.StripStringContents | src/source_scan.rs:161-172 | literal contents become spaces, everything else and every position is kept |
| FmtSpacing.NormalizeSpacing | src/fmt.rs:116-348 | the rewriting loop and the collapsing of code spaces, as a function whose spacing `FmtSpacingLaws` states |
| FmtSpacing.RewriteAdvances | src/fmt.rs:116-348 | every arm consumes at least one character and stays within the line |
| FmtSpacingLaws.SpacesAsTheyFallDue | src/fmt.rs:116-348 | the result is the line read once with its code spaces set one at a time: which space is due before and behind which character, and which existing ones go |
| FmtSpacingLaws.LeftAloneButForSlashes | src/fmt.rs:116-124 | a line the quick check leaves as it is holds nothing that would get a space, a slash excepted |
| FmtSpacingLaws.TightBefore | src/fmt.rs:246-252 | no space comes before a comma or a closing bracket |
| FmtSpacingLaws.PlusIsSpaced | src/fmt.rs:294-312 | a plus has a space on both sides, brackets and line ends apart |
| FmtSpacingLaws.BracketTakesOneSpace | src/fmt.rs:237-245 | exactly one space behind an opening bracket goes, a second one stays |
| FmtSpacingLaws.BracketIsNotTight | src/fmt.rs:237-245 | a bracket with two spaces behind it keeps one, so that the result is not tight |
| FmtRegions.RegionAt | src/source_scan.rs:54-156 | the region of a character is given by the state before it and, for a slash, the next character |
| FmtRegions.VerbatimPairs | src/fmt.rs:116-348 | the rewriter's escape pairs stay aligned with the scanner's |
| FmtRegions.SlashIsDivision | src/fmt.rs:116-348 | the comment arms for a slash in code are never taken |
| FmtRegions.RewriteKeepsAligned | src/fmt.rs:116-348 | every arm keeps output and input aligned: same state, same characters and regions up to code spaces |
| FmtRegions.NormalizationKeepsSubstance | src/fmt.rs:116-348 | on a trimmed line only code-region spaces change: no string, character literal or comment is altered, opened or closed |
| FmtFile.BlockCommentCarries | src/fmt.rs:9-46 | the ad-hoc comment tracker as a function of the line and its start |
| FmtFile.LineStarts | src/fmt.rs:349-405 | every line lies inside the source |
| FmtFile.FormatOneLine | src/fmt.rs:349-405 | what one line adds to the output, and the indentation, blank-line and comment state after it; what the indentation is, is stated in `FmtIndent` |
| FmtFile.Format | src/fmt.rs:349-405 | the whole formatter, line by line |
| FmtIndent.StateIsDepth | src/fmt.rs:349-405 | the indentation before every line is the nesting depth, read off the raw lines: one more behind a line that ends in an opening bracket outside literals, one less, not below zero, on a line that starts with a closing one |
| FmtIndent.LineStandsAtItsDepth | src/fmt.rs:349-405 | a line that is not blank stands at four times its depth, and a run of blank lines leaves one |
| FmtIndent.ClosingLineStandsUnderOpening | src/fmt.rs:385-395 | behind an opening line the first line that stands no deeper starts with a closing bracket and stands exactly where the opening line does |
| FmtIndent.CommentOpens | src/fmt.rs:376-395 | a comment that ends in an opening bracket indents what follows |
| FmtFileRegions.TrackerAgrees | src/fmt.rs:9-46 | without character literals the tracker and the scanner agree at the end of a line |
| FmtFileRegions.LineKeepsVisible | src/fmt.rs:349-405 | what a line that starts and ends outside literals adds to the output reads like the line with its newline |
| FmtFileRegions.FormattingKeepsVisible | src/fmt.rs:349-405 | where strings close on their line and no character literal occurs, formatting changes nothing but whitespace outside literals, regions included |
| FmtFileRegions.CharLiteralBreaksTracker | src/fmt.rs:9-46 | a remark on the tracker alone: on a line with a character literal, which no Mimi program has, it and the scanner disagree |
| FmtStrings.OpeningPiece | src/fmt.rs:349-405 | what a line that ends inside a string adds reads like the line up to its trailing whitespace, which is lost |
| FmtStrings.ContinuingPiece | src/fmt.rs:349-405 | a line that starts inside a string, is tame and keeps its part of the string adds what reads like the raw line with its newline |
| FmtFileStrings.LostForGood | src/fmt.rs:349-405 | a part of a string that its own line loses is not made up for by any later line |
| FmtFileStrings.LostLiteralIsVisible | src/fmt.rs:349-405 | behind continuation lines that are tame and kept, the first line that loses its part of a string changes what is visible, whatever follows it |
| FmtFileStrings.FirstStringLineShows | src/fmt.rs:349-405 | in any closed source, if the first line that starts inside a string is not kept there, formatting changes the literal |
| FmtFileStrings.FormattingKeepsVisibleExactly | src/fmt.rs:349-405 | when the continuation lines are tame, formatting changes nothing but whitespace outside literals if and only if every line that spans a string keeps its part of it in the output |
| FmtFileStrings.FormattableIsKept | src/fmt.rs:349-405 | where strings close on their line no line loses a part of one |
| FmtCommentFlag.FlagStep | src/fmt.rs:349-405 | a flag that is right stays right over every line that starts outside strings, and over another if and only if the tracker follows the scanner on that line |
| FmtCommentFlag.FlagRightExactly | src/fmt.rs:349-405 | in every closed source (no character literal, no string open at its end) the comment flag is the scanner's state before all lines up to the n-th if and only if the tracker follows the scanner on every line before it that starts inside a string |
| FmtCommentFlag.TracksExactly | src/fmt.rs:9-46 | the tracker follows on such a line if and only if a scan of the trimmed line from code and the scan of the file agree on whether a comment is open at its end |
| FmtCommentFlag.FlagRightExactlyOnSource | src/fmt.rs:349-405 | the same condition read off the source: the flag is right if and only if those two scans agree on every line that starts inside a string |
| FmtCommentFlag.FlagFollowsKeptStrings | src/fmt.rs:349-405 | corollary: over tame lines that keep their parts of strings the flag is right |
| FmtCommentFlag.FlagIsScannerState | src/fmt.rs:349-405 | corollary: where strings close on their line the flag is right before every line |
| FmtLiteralLines.KeptWhereItStands | src/fmt.rs:349-405 | a continuation line keeps its part of the string if and only if it stands: blank lines empty and not behind a blank one, others indented by exactly the given spaces with the rest of the part a prefix of the re-spaced line |
| FmtLiteralLines.PlainLineStands | src/fmt.rs:349-405 | where nothing is re-spaced, a line stands if and only if its indentation is the given one and it closes the string or has no whitespace at its end |
| FmtLiteralLines.FormattingKeepsStandingExactly | src/fmt.rs:349-405 | when the continuation lines are tame, formatting changes nothing but whitespace outside literals if and only if every line stands that spans a string |
| FmtLiteralLines.FallenLineShows | src/fmt.rs:349-405 | behind tame lines that stand, the first line that does not stand changes what is visible, whatever follows it |
| FmtLiteralLines.FirstStringLineHasToStand | src/fmt.rs:349-405 | in any closed source, if the first line that starts inside a string does not stand, formatting changes the literal |
| FmtStringInputs.OddIndentShows | src/fmt.rs:349-405 | behind continuation lines that are tame and kept, one with leading spaces other than a multiple of four is changed |
| FmtStringInputs.FormattingChangesString | src/fmt.rs:349-405 | a string literal over two lines from which formatting deletes two spaces |
| FmtStringInputs.SecondStringOnLineChanges | src/fmt.rs:349-405 | a continuation line that is not tame: it keeps its part of the string, and formatting changes another string on it |
| FmtStringInputs.OpenerInStringBreaksFlag | src/fmt.rs:349-405 | a string literal over two lines behind which the comment flag is set although no comment is open |
| SourceRegistry.PathsEquivalentIsEquivalence | src/span.rs:436-444 | path equivalence is reflexive, symmetric and transitive |
| SourceRegistry.FindConflict | src/span.rs:277-359 | the first record that claims the URI, or the path, under another key; none exactly when there is none |
| SourceRegistry.RegisteredKeeps | src/span.rs:277-359 | a registration keeps ids dense, index and records in agreement, claims unique and issued ids bound to their key |
| SourceRegistry.AbsorbedRegistersAgain | src/span.rs:277-359 | registering what is already absorbed returns its id and changes nothing |
| SourceRegistry.RegistersExactly | src/span.rs:277-359 | a registration succeeds if and only if no other record claims the path or the URI and the key is new with an id left, or its record is the same source; the id under which it does |
| SourceRegistry.RegisteringKeeps | src/span.rs:316-345 | what the record under the key is then: the known path, URI and origin, with the new ones where they are missing or override |
| SourceRegistry.OverlayRegisters | src/span.rs:316-345 | an editor's overlay of a file on disk with an equivalent path, which nothing else claims, registers under the old id |
| SourceRegistry.MergeTranslates | src/span.rs:414-433 | a successful merge translates every incoming id, and no other, to the id its key has afterwards |
| SourceRegistry.MergeRemaps | src/span.rs:225-243 | the remap of a successful merge takes every incoming id to the record that absorbed its key, keeps the unknown source, and refuses all other ids |
| SourceRegistry.TranslationIsInjective | src/span.rs:414-433 | the translation never joins two incoming ids |
| SourceRegistry.MergeIsIdempotent | src/span.rs:414-433 | merging the same registry again changes nothing and translates the same way |
| SourceRegistry.Performed | src/span.rs:277-433 | one operation keeps the registry well-formed and issued ids bound |
| SourceRegistry.IssuedIdsKeepTheirKey | src/span.rs:277-433 | over any history of operations every issued id keeps its key |
| SourceRegistry.Registry.constructor | src/span.rs:277-359 | a new registry is empty and well-formed |
| SourceRegistry.Registry.FirstConflict | src/span.rs:277-359 | the linear search for a conflicting record |
| SourceRegistry.Registry.Register | src/span.rs:277-359 | the whole new registry and the id, or the error with nothing changed |
| SourceRegistry.Registry.IdForKey | src/span.rs:369-371 | an id leads to the record with that key; none exactly when no record has it |
| SourceRegistry.Registry.Record | src/span.rs:390-393 | a record exists exactly for ids 1 to n, and the index leads back to it |
| SourceRegistry.Registry.RegisterAll | src/span.rs:414-433 | the merge loop on the copy: all records and the translation, or the first error |
| SourceRegistry.Registry.MergeFrom | src/span.rs:414-433 | all records or none, atomically, with the translation |
| SourceRegistry.MergeFails | src/span.rs:414-433 | a merge that fails after some records fails altogether with the same error |
| FlowMatrix.BodiesIgnoreTransitions | src/flow_matrix.rs:258-299 | generated bodies depend on states and persistent fields alone |
| FlowMatrix.StateIndex | src/flow_matrix.rs:249-254 | the first state with a name, none exactly when there is none |
| FlowMatrix.FirstStateExcept | src/flow_matrix.rs:249-254 | the first state outside a set of names, none exactly when there is none |
| FlowMatrix.FirstDeclarationCounts | src/flow_matrix.rs:752-766 | a persistent field has the type of its first declaration in state order |
| FlowMatrix.OwnShapesAreFirst | src/flow_matrix.rs:214-225 | a state's shape is the payload of its first declaration, and Fault has none |
| FlowInPlace.FlowDef.constructor | src/flow_matrix.rs:227-246 | a flow definition holds the given flow |
| FlowInPlace.FlowDef.ResolveTypes | src/flow_matrix.rs:752-766 | each declared persistent field is mapped to its first declaration's type |
| FlowInPlace.FlowDef.AttachPersistentShadows | src/flow_matrix.rs:752-803 | missing persistent fields are pushed onto Fault, everything else is kept |
| FlowInPlace.FlowDef.EnsureFaultState | src/flow_matrix.rs:697-749 | Fault is added when missing and then shadowed |
| FlowInPlace.FlowDef.InjectVerbs | src/flow_matrix.rs:615-681 | `reset` and `recover` are pushed when missing; what they yield is stated in `FlowDefaults` |
| FlowInPlace.FlowDef.PeerFaultSources | src/flow_matrix.rs:395-401 | the states that already answer `peer_fault` |
| FlowInPlace.FlowDef.InjectPeerFaultVerbs | src/flow_matrix.rs:388-454 | a `peer_fault` for every state without one, Fault last |
| FlowInPlace.FlowDef.InjectFfiPinnedTransitions | src/flow_matrix.rs:468-614 | the pinned transitions, entry and exit only for equal payload names |
| FlowInPlace.FlowDef.ExpandWithShapes | src/flow_matrix.rs:227-246 | the four passes in order |
| FlowInPlace.FlowDef.Expand | src/flow_matrix.rs:214-225 | the stand-alone entry point with the flow's own shapes |
| FlowExpansion.ShadowsAreTheMissingFields | src/flow_matrix.rs:752-803 | Fault keeps its fields and gains exactly the persistent ones it lacked, each with its declared type |
| FlowExpansion.ExpansionKeepsUserParts | src/flow_matrix.rs:227-246 | user states and transitions stay as a prefix; only the first Fault may gain shadow fields |
| FlowExpansion.PeerFaultsKeepDistinct | src/flow_matrix.rs:388-454 | which pairs are answered once the first states have their `peer_fault`, and when none is doubled |
| FlowExpansion.DistinctPairsStayDistinct | src/flow_matrix.rs:227-246 | (state, event) pairs are distinct after expansion if and only if they were before and no state name repeats, Fault and user-handled states excepted |
| FlowExpansion.TwiceDeclaredIsDoubled | src/flow_matrix.rs:227-246 | a flow with a state declared twice, whose pairs are distinct before expansion and not after |
| FlowExpansion.ExpansionIsIdempotent | src/flow_matrix.rs:227-246 | expanding an expanded flow changes nothing |
| FlowExpansion.ExpandingAloneIsIdempotent | src/flow_matrix.rs:214-225 | the stand-alone entry point is idempotent too |
| FlowRuns.ExpansionGenerates | src/flow_matrix.rs:227-681 | every transition the user did not write has the body its event calls for |
| FlowRuns.DefaultsReadNothing | src/flow_matrix.rs:301-377 | a default value ends on recursive shapes and reads no field of `self` |
| FlowDefaults.DefaultIsZero | src/flow_matrix.rs:300-377 | the default of every type evaluates to its zero: 0, 0.0, false, the empty string, an empty list, map or set, `None`, an `Err` of a zero, and records and tuples of zeros down to the nesting bound |
| FlowDefaults.RootIsZeroed | src/flow_matrix.rs:256-299 | in Fault, `reset` yields a root all of whose fields are zeros, and `recover` one whose persistent fields are Fault's and whose others are zeros |
| FlowDefaults.OtherFaultFieldsAreZero | src/flow_matrix.rs:883-1037 | after a first fault every field of Fault that neither records it nor persists is the zero of its type |
| FlowDefaults.PinnedRoundTrip | src/flow_matrix.rs:468-614 | entering a foreign call and leaving it gives back the state and the value of every field |
| FlowRuns.ReadsOnlyEvaluates | src/flow_matrix.rs:883-951 | an expression that reads only fields at hand has a value |
| FlowSurvival.GeneratedBodiesAreClosed | src/flow_matrix.rs:227-246 | every generated body lists exactly its target's fields and reads only fields its source has |
| FlowSurvival.ClosedBodiesRun | src/flow_matrix.rs:883-951 | such a body, run on a record of its source, yields a record of its target |
| FlowSurvival.GeneratedStep | src/flow_matrix.rs:388-681 | an event the user does not answer runs the generated body and never gets stuck |
| FlowSurvival.PeerFaultsInFault | src/flow_matrix.rs:430-451 | any number of peer faults in Fault keep the persistent fields and the record of the first fault |
| FlowSurvival.PersistentFieldsSurvive | src/flow_matrix.rs:258-299 | a fault in any state, any number of peer faults, then `recover`: the root is rebuilt with the original value of every persistent field it shares |
| FlowSurvival.FirstFaultIsRecorded | src/flow_matrix.rs:953-1037 | the injected Fault holds the state that failed and the event as variants, the summary text, and a trace with all four, field by field |
| FlowSurvival.InjectedFaultStarts | src/flow_matrix.rs:697-749 | the injected Fault starts with its four well-known fields and the error of the declared type |
| FlowSurvival.PanicIsRecorded | src/flow_matrix.rs:970-985 | an event with the panic prefix is recorded as a panic with the text behind it |
| IncludedSources.EdgeExtendsReach | src/runtime_cache.rs:32-60 | an include target of a reachable file is reachable |
| IncludedSources.ClosedSetHoldsReachable | src/runtime_cache.rs:32-60 | a set with the roots, closed under inclusion, holds every reachable file |
| IncludedSources.FollowIncludes | src/runtime_cache.rs:40-59 | following the targets of one source keeps the worklist's invariant, or names the source as faulty |
| IncludedSources.DoneIsSound | src/runtime_cache.rs:32-61 | with nothing pending, no reachable file is faulty and the result is exact |
| IncludedSources.FindIncludedSources | src/runtime_cache.rs:19-62 | ends on cyclic include graphs; succeeds if and only if no reachable file is faulty, and then returns without duplicates exactly the include targets of reachable files less the given sources |
| CompilerFrame.FrameBuffer.constructor | src/runtime_cache.rs:263 | a frame starts with its marker |
| CompilerFrame.FrameBuffer.AppendLenFramed | src/runtime_cache.rs:282-285 | appends the eight-byte length and the bytes |
| CompilerFrame.FrameBuffer.AppendValue | src/runtime_cache.rs:271-277 | appends the presence marker and, when present, the framed value |
| CompilerFrame.FrameBuffer.AppendEntries | src/runtime_cache.rs:264-278 | appends every key with its effective value, in order |
| CompilerFrame.CompilerEnvironmentFrame | src/runtime_cache.rs:259-280 | the whole frame for a sanitizer flag and an environment |
| CompilerFrame.EntriesAreTaken | src/runtime_cache.rs:264-285 | decoding the entries gives back every key and value |
| CompilerFrame.DecodeUndoesFrame | src/runtime_cache.rs:259-285 | a decoder that undoes the encoder, unset told from empty |
| CompilerFrame.FramesIdentifyEnvironments | src/runtime_cache.rs:259-285 | two frames are the same bytes if and only if the compiler sees the same value, or none, under every key |
| CompilerFrame.FramesDifferOnlyInListedKeys | src/runtime_cache.rs:236-280 | for one flag: agreement in presence and content on every key, the toolchain excepted under the sanitizer |
| CompilerFrame.SanitizerIsNightly | src/runtime_cache.rs:236-280 | a sanitizer build has the frame of a plain one if and only if that one's toolchain is nightly and all other keys agree |
| Bytes.LittleEndianRoundTrip | src/runtime_cache.rs:282-285 | reading back a little-endian number in range |
| Bytes.LittleEndianLowPart | src/codegen/actors.rs:1978-2011 | reading fewer bytes keeps the low part of the number |
| ActorAbi.WideningKeepsNumber | src/codegen/actors.rs:475-494 | sign extension keeps the signed number, and its low bits are the original |
| ActorAbi.ConvertedHasType | src/codegen/actors.rs:1826-1892 | the converted argument has the declared type, and an argument of that type is stored as it is |
| ActorAbi.ConvertedStandsFor | src/codegen/actors.rs:1826-1892 | what is stored for an argument is what its declared type makes of it: widened, more than one bit keeps the signed number and one bit its pattern; narrowed, the remainder modulo the width's power of two |
| ActorAbi.FittingNumberIsKept | src/codegen/actors.rs:1826-1849 | a number that fits the declared type is stored as the same signed number |
| ActorAbi.StoreThenLoad | src/codegen/actors.rs:397-454 | a load by the declared type gives back the stored value |
| ActorAbi.SlotsAreAlignedAndDisjoint | src/codegen/actors.rs:24-27 | slots are 8-aligned, disjoint, and hold their value within the total |
| ActorAbi.PackedSlot | src/codegen/actors.rs:1789-1928 | each packed value lies in its slot, undisturbed by the later ones |
| ActorAbi.UnpackUndoesPack | src/codegen/actors.rs:377-457 | whatever the blobs held before, the unpacked values are the packed ones |
| ActorAbi.CallDelivers | src/codegen/actors.rs:1772-1930 | a call that fits sends exactly the size dispatch requires, so its underflow check never fires, and every argument arrives as what its declared type makes of it |
| ActorMailbox.Store | src/codegen/actors.rs:1826-1849 | the store writes the value's bytes at its offset and nothing else |
| ActorMailbox.StoreArgument | src/codegen/actors.rs:1790-1927 | an argument is held against its slot and stored at its start |
| ActorMailbox.PackArguments | src/codegen/actors.rs:1772-1930 | aborts before any store when the total exceeds 256 bytes; otherwise all stores stay inside, and the size sent is the sum of the slots |
| ActorMailbox.PackedSize | src/codegen/actors.rs:352-356 | the sum of the declared slot sizes |
| ActorMailbox.UnpackArguments | src/codegen/actors.rs:346-457 | overflow, underflow, or every parameter loaded from its slot |
| ActorResults.PackResult | src/codegen/actors.rs:462-585 | the widened result in the blob and its reported size, or an abort with the blob untouched |
| ActorResults.ScalarArrives | src/codegen/actors.rs:474-541 | a scalar stored as a number whose low bits it is arrives as it was |
| ActorResults.ResultArrivesExactly | src/codegen/actors.rs:474-585 | the declared-type load returns the method's value for every bit pattern and every blob, if and only if it is not an integer wider than 64 bits |
| ActorLowering.DeclaredFitsScalar | src/codegen/mod.rs:5322-5448 | whatever type is declared, an integer it is lowered to has 1, 32 or 64 bits and a float 32 or 64 |
| ActorLowering.RegisteringKeepsScalars | src/codegen/registry/types.rs:182-548 | no sequence of records, enums, aliases, newtypes, unions and actors brings in a wider number |
| ActorLowering.EndsAgree | src/codegen/actors.rs:1978-2011 | caller and method agree on the type of the result |
| ActorLayout.AlignIsPower | src/codegen/mod.rs:5972-6002 | alignments are powers of two, and a number's is the first one its bytes fit in |
| ActorLayout.StructIsItsLayout | src/codegen/mod.rs:5949-5961 | with every field at the first multiple of its alignment behind the one before, a struct's size is the first multiple of its alignment behind the last, and that alignment is the largest of its fields' and a multiple of each |
| ActorLayout.PartsAreApart | src/codegen/mod.rs:5949-5961 | fields so laid out do not overlap and end within the struct |
| ActorLowering.RefusedExactly | src/codegen/actors.rs:474-585 | dispatch refuses a result exactly when it is a record larger than the blob, and never a number |
| ActorLowering.DeclaredResultArrives | src/codegen/actors.rs:474-585 | a result of a declared type reaches the caller, whatever its blob held, if and only if the type is not lowered to an array |
| ActorLowering.ResultsOfProgramsArrive | src/codegen/actors.rs:474-585 | in any program every result that is not refused, an array or a union arrives |
| ActorLowering.ArrayIsLost | src/codegen/actors.rs:580-585 | a method declared to return `[i32; 3]` answers with twelve bytes, and its caller gets the number zero whatever its blob held |
| ActorLowering.UnionIsLost | src/codegen/registry/types.rs:499-521 | a program that declares a union of a number and a string: sixteen bytes returned, the number zero received |
| ScopeStacks.CodeGenerator.constructor | src/codegen/mod.rs:797-802 | one scope of counts, nothing pending |
| ScopeStacks.CodeGenerator.PushSharedScope | src/codegen/scope.rs:356-359 | one empty scope of each kind on top |
| ScopeStacks.CodeGenerator.RegisterSharedVar | src/codegen/scope.rs:477-482 | the count joins the innermost scope |
| ScopeStacks.CodeGenerator.PopSharedScope | src/codegen/scope.rs:363-391 | the innermost counts are released, duplicates included, and their scope is gone |
| ScopeStacks.CodeGenerator.EmitAllSharedReleases | src/codegen/scope.rs:397-428 | every count of every scope is released, the stacks untouched |
| ScopeStacks.CodeGenerator.DiscardSharedScope | src/codegen/scope.rs:432-435 | the innermost scope is dropped without a release |
| ScopeStacks.CodeGenerator.ReleaseAllShared | src/codegen/scope.rs:438-474 | every count is released and the stacks start over |
| ScopeStacks.CodeGenerator.PushDeferScope | src/codegen/scope.rs:85-87 | a scope starts at the blocks pending now |
| ScopeStacks.CodeGenerator.RegisterDefer | src/codegen/scope.rs:107-109 | the block becomes pending |
| ScopeStacks.CodeGenerator.PopDeferScope | src/codegen/scope.rs:91-104 | exactly the blocks registered since the push, the last one first; outer ones stay pending |
| ScopeStacks.CodeGenerator.DiscardDeferScope | src/codegen/scope.rs:114-118 | the scope's blocks are dropped without being run |
| ScopeStacks.CodeGenerator.PopCompScope | src/codegen/scope.rs:73-77 | the scope's compensations are dropped |
| ScopeStacks.CodeGenerator.CompileCompensations | src/codegen/scope.rs:121-130 | every pending compensation, latest first |
| ScopeStacks.CodeGenerator.CompileStmt | src/codegen/block.rs:1230-1306 | what one statement emits and registers |
| ScopeStacks.CodeGenerator.CompileBlock | src/codegen/block.rs:40-1392 | the block's code, with every stack restored whether it returns early or falls through |
| ScopePaths.BlockReleases | src/codegen/scope.rs:356-435 | every path through a block releases what it retained, and a returning one also every enclosing count |
| ScopePaths.EachCountIsReleasedOnce | src/codegen/scope.rs:356-435 | on every path through a function body each strong and weak count is released exactly once |
| ScopeDefers.StmtsRun | src/codegen/scope.rs:91-104 | no path runs a deferred block too often; one that falls through runs each exactly once per registration |
| ScopeDefers.LossWitness | src/codegen/block.rs:181-193 | uncovered statements have a path on which a deferred block is skipped |
| ScopeDefers.DefersRunExactlyWhenCovered | src/codegen/block.rs:181-193 | deferred blocks run once on every path if and only if no reachable return sits in a nested block while the block around it has some pending |
| ScopeDefers.EarlyReturnSkipsDefer | src/codegen/block.rs:181-193 | the smallest program on which a deferred block is skipped |
| ScopeOrder.StmtsReplay | src/codegen/scope.rs:91-104 | read as a stack, a path through statements finds its own deferred blocks on top, latest first |
| ScopeOrder.DefersRunLatestFirst | src/codegen/scope.rs:91-104 | on every path a block that runs is the latest one pending, and the counts retained since its registration are released by then; none is left where the path falls through or the body is covered |
| ScopeOrder.TwoDefersRunInReverse | src/codegen/scope.rs:91-104 | two blocks deferred one after the other run in reverse |
| ScopeOrder.DeferRunsAfterRelease | src/codegen/block.rs:1378-1392 | a block deferred behind a shared value runs after the value's count has been released |
| MonoRecover.Recovery.constructor | src/codegen/mono_recover.rs:58-60 | recovery starts with no bindings |
| MonoRecover.Recovery.Walk | src/codegen/mono_recover.rs:17-56 | the walk inserts the first binding of every generic it meets |
| MonoRecover.InferTypeArgs | src/codegen/mono_recover.rs:58-72 | the loop over parameters and argument types |
| MonoRecover.RecoversSubstitution | src/codegen/mono_recover.rs:17-71 | for instances under one substitution the recovered bindings are that substitution on exactly the generics the walk reaches |
| MonoRecover.WalkAllKeepsFirst | src/codegen/mono_recover.rs:25-33 | for any argument types each generic is bound to its first matching occurrence |
| MonoRecover.HeadsMatchExactly | src/codegen/mono_recover.rs:17-56 | a nominal type has a matching head if and only if its name, the builtin prefix taken off as often as it is there, is the head, is a qualified form of it, or is an ending of it |
| MonoRecover.NamedHeadsMatch | src/codegen/mono_recover.rs:17-56 | the builtin of that name and every qualified one match |
| MonoRecover.ElementIsRecovered | src/codegen/mono_recover.rs:17-56 | so the element type of such a collection is recovered |
| MonoRecover.EndingsMatch | src/codegen/mono_recover.rs:17-56 | a type of another name matches too, when the head ends in it |

## Left out

- SessionEquality.StopsExactly: the comparison is a function with a recursion bound that answers `None` when it runs out, because the source's recursion does not end on every input; payload compatibility is a parameter, an equivalence where a lemma needs one.
- SessionChannels.PairIsSafe: the queues between the two ends are part of the model, and a session that is not declared is not opened; errors carry the residual instead of its rendered text.
- SessionCycles.DetectSessionCycle: which cycle is reported depends on hash order in the source, so only that it is one is stated.
- FloatConvergence.ConvergencePreservesOutcome: only straight-line code with the check shape the compiler emits; consumption of every dropped value is sufficient, and `OutcomeKeptExactly` gives the exact condition where one value is non-finite at its checks. Which operation name the trap reports is not modelled.
- FloatConvergence.SafeLibmPropagates: library functions are given by their special values; finite results, rounding and overflow are left to the machine.
- FmtFileRegions.FormattingKeepsVisible: assumes no single quote in code and every string closed on its own line. The first holds of every program, because no token contains a single quote (`src/lexer/scan.rs:904-908`, `src/lexer/flow.rs:1176-1180`), wherever the shared scanner's regions are the lexer's; the lexer nests block comments and the scanner does not. Without the second see `FmtLiteralLines`. Idempotence of the formatter is not claimed, since some inputs are not fixed points.
- FmtLiteralLines.FormattingKeepsStandingExactly: only for tame continuation lines. The formatter scans such a line on its own, so that a further quote or slash on it turns code into string or comment for the rewriter and the tracker and the other way round; then parts that are kept are not enough (`FmtStringInputs.SecondStringOnLineChanges`), and no condition on single lines decides: the line `" /* "x */` is re-spaced to end in `* /`, which shows unless a later line begins with a comment opener. What holds without the hypothesis is `FirstStringLineHasToStand`. The indentation a line is given is the formatter's nesting depth there.
- FmtFileStrings.FormattingKeepsVisibleExactly: the same, stated on the formatter's output for each line; `FmtFileStrings.LostLiteralIsVisible` and `FmtStringInputs.OddIndentShows` need the continuation lines before the lost one to be tame and kept.
- SourceRegistry.PathsEquivalentIsEquivalence: canonicalisation of paths is a parameter that may fail; reading files, hashing and spans are not modelled.
- SourceRegistry.IssuedIdsKeepTheirKey: one canonicalisation holds for a whole history, so uniqueness of paths assumes that the file system does not change between operations.
- FlowSurvival.PersistentFieldsSurvive: bodies the user wrote are not run, so the events of the run are ones the user does not answer; the interpreter's degradation of `recover` to `reset` for dirty fields is not modelled.
- FlowSurvival.FirstFaultIsRecorded: a typed `error` field is given its default again by every further fault, so it is not among the protected fields.
- FlowExpansion.ExpandingAloneIsIdempotent: per flow; the file-level pass adds the nominal enums again on a second run and is not modelled.
- IncludedSources.FindIncludedSources: the file system is a finite map, and the scanner for include literals and path arithmetic are parameters; that the file system does not change during the search is assumed. The map is over spellings of paths, so that termination assumes finitely many of them; in the source an include cycle through `../dir/x` can spell one file in ever longer ways.
- CompilerFrame.CompilerEnvironmentFrame: the environment is a function of the key that does not change between lookups, and values are shorter than 2^64 bytes.
- ActorMailbox.PackArguments: the checker guarantees arity and kinds of arguments, so the store arms for arguments of another kind than their parameter are outside the precondition; records are known by their size, and array parameters are not modelled.
- ActorLowering.DeclaredResultArrives: a program that declares a type of its own under the name `i32`, `f64` or `bool` is left out, because the caller reads those names without looking them up; fields of records with the C layout are given as lowered. How the method's body computes an array is not modelled.
- ActorAbi.CallDelivers: the mailbox transports the bytes sent unchanged; threads, queueing and back-pressure are not modelled.
- ScopeStacks.CodeGenerator.CompileBlock: only the statements that touch the stacks; heap scopes, loops, the compensations that an `exit` call compiles and the early return of a rejected transition, which discards a scope in the middle of a block, are not modelled. The runtime's release functions are taken to be declared.
- ScopeDefers.DefersRunExactlyWhenCovered: a deferred block is known by its identity, and its own contents are not compiled.
- FloatAcceptance.ChainOpsAreExact: a call to a function of the table is taken to have one argument, as the compiler emits it; a `fabs` intrinsic passes non-finiteness on too, but the source's table does not list it.
- FmtIndent.StateIsDepth: an opening bracket at the end of a comment counts, as it does in the source (`FmtIndent.CommentOpens`).
- FlowSurvival.PanicIsRecorded: no event that expansion injects has the prefix, so this is about the default of the field alone.
- MonoRecover.RecoversSubstitution: only type names nest; generics under other type forms are not reached by the walk and are not claimed.
- Source positions: the `Located` wrappers and the metadata of generated nodes are dropped throughout.
- Diagnostics: messages printed on standard error are not modelled.
- Lint, documentation, packaging, the language server and the parsers are not modelled.
