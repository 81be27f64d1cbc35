# A Dafny model of vince

This project models the parts of vince (an nginx-compatible proxy written in Go) whose behaviour
is hard to see from the code, and proves what they promise. `dafny verify dfyconfig.toml` checks
all of it.

## What is modelled

**The configuration pipeline.** `Lexer.dfy` holds the lexer in its own form, a class with nested
loops over a line-counting iterator, proved against a transducer that reads one rune at a time.
`LexerFacts.dfy` shows when the lexer returns at all and where its tokens stand, `Lexemes.dfy` what
it makes of any text written down piece by piece. `Build.dfy` is the printer, `GoStrings.dfy` holds
its quoting against Go's own literals, and `Lines.dfy` describes its lines and margins. `Parse.dfy`
is the recursive token parser, `IfArgs.dfy` its treatment of conditions; `DocumentOrder.dfy` compares
it with a flat reading of the tokens, `Contexts.dfy` its contexts with the blocks around a statement.
`RoundTrip.dfy`, `TreeRoundTrip.dfy` and
`FormatRoundTrip.dfy` prove that printing is undone by lexing and parsing: string by string as an
if-and-only-if, and for whole trees. `StrayWords.dfy` proves the converse: a tree with an `if` or an
unfaithful string anywhere is not read back. `Layout.dfy` follows the lines of the printed text and
decides when formatting again changes nothing, and `FormatText.dfy` states both of texts rather than
trees. `Prune.dfy` shows that ignoring directives prunes the full parse. `Includes.dfy`,
`Worklist.dfy`, `Combine.dfy` and `CombineFacts.dfy` treat the list of files that grows while it is
parsed, when that loop ends, and what the combined tree is; `ParseAll.dfy` puts these together.
`Analyze.dfy` is the check of arguments against a table that every check permutes in place.

**The file-handle cache.** `FileCache.dfy` has the cache on values; it and `CacheLaws.dfy` have its
laws over all runs;
`FileCacheImpl.dfy` the list of nodes and the hash, proved to do the same; `Sweep.dfy` the
background scan that takes no lock, as a machine of interleaved steps.

**The smaller cores.** `ConnManager.dfy`: connection counters under interleaved events and
snapshots. `RateLimit.dfy`: the windowed limiter and its exact bound. `TxnActor.dfy`: one goroutine
serving a transaction to many callers. `RaftStore.dfy`: the raft log over an ordered key store.
`RedirectUri.dfy`: containment of redirect addresses.

## How to read the model

- Runes are `char`; the rune read at the end of the input is NUL, as in the source. A lexer that
  never returns has the result `Unterminated`; that this is what the source's loops do is
  `ReturnsIffBackAtTop`. The point where the input goes to a Lua block lexer is `LuaBlock`.
- The source's nil dereferences and index errors are the outcomes `Panic`, `Broken` and `Panics`.
- I/O is a parameter: the table behind strconv.IsPrint, the resolution of include patterns, the
  texts of the files, the readings of the clock, the handles that openers return, url.Parse.
- Threads become interleaved atomic steps. A theorem about runs quantifies over every sequence of
  enabled steps.

## What the proofs found

- Printing and lexing agree on a string exactly when it is bare, does not begin with `#` and does
  not end in an unfinished escape; or is quoted, prints, and has its backslashes in runs of four.
- A printed configuration is lexed to its own words if and only if no statement at any depth is an
  `if`, all its strings are such, and it does not end in a comment: then the lexer does not return.
  Neighbouring comments of one line are printed as one comment.
- White space right behind `${name}` does not end the word but becomes part of it, and a word that
  the text ends is lost.
- A quoted `#` makes a statement that is printed as an empty comment, its arguments lost.
- Formatting twice gives the same text if and only if no comment stands on the line of a statement
  with a block right before it, nor of a statement that begins with a bare backslash, whose line the
  lexer does not record. A third time never changes the text again.
- `parse` ends if and only if the root is in no set of files that include one another and no file it
  reaches breaks it, and then after exactly as many files as the includes unfold to.
- Combining drops the block of an include that names files, and the files included from inside it.
  It also makes an empty block nil, so that `events {}` becomes a statement without a block.
- Statements inside ignored blocks are still checked, and their includes still queued, in contexts
  that start afresh at the ignored statement. Comments are never put to the ignore predicate.
- The argument check gives the same verdict whatever calls came before; its check of the context
  never rejects.
- A limiter bounds the takes of an interval if and only if nothing fits into it, or its amount is at
  least one and its rate not negative. Those made by `setup` have no amount: they allow everything,
  or nothing if the rate was negative.
- `newTxn` does not store its parameters, so that every transaction is a view: no write is ever
  answered as done, and the database stays as it was.
- Replies go to their own callers in every interleaving if and only if no call with a name the actor
  does not know is made beside a read, a write or an id.
- The hijacked and open counters are exact at rest if and only if no `CloseConn` was called on a
  connection that an earlier one had yet to remove; otherwise they are short by one for each.
- `LastIndex` of an empty log is an error, where raft expects zero.

## Model

| member | source | states |
|---|---|---|
| ConfigLex.LineCounter.Next | config_lex.go:57-66 | the next rune with the line reached; at the end NUL and line 0, again and again |
| ConfigLex.Lexer.SkipSpace | config_lex.go:128-130 | skipping white space leaves the state the transducer has after the same runes, also when the input ends there |
| ConfigLex.Lexer.ScanComment | config_lex.go:132-144 | a comment is emitted with the line it began on, or the text is unterminated |
| ConfigLex.Lexer.ScanVariable | config_lex.go:155-161 | the inner loop over `${`, its ends at `}`, white space or the end of the input |
| ConfigLex.Lexer.ScanEscape | config_lex.go:170-176 | an escaped quotation mark loses its backslash, any other rune keeps it |
| ConfigLex.Lexer.ScanQuote | config_lex.go:167-181 | the text between quotes, or the text is unterminated |
| ConfigLex.Lexer.ScanWord | config_lex.go:132-161 | the part of a turn behind white space agrees with the transducer |
| ConfigLex.Lexer.ScanRest | config_lex.go:162-215 | the part that ends or extends the pending token agrees with the transducer |
| ConfigLex.Lexer.Scan | config_lex.go:103-217 | the nested loops compute what the one-rune transducer computes on every text, and a run that returns has read everything |
| ConfigLex.LuaIsFinal | config_lex.go:117-122 | nothing behind the start of a Lua block changes that outcome |
| ConfigLex.BalanceBraces | config_lex.go:226-253 | accepts exactly the lists whose depth never goes below zero and ends at zero; blames the first closing brace too many, or the end |
| LexerFacts.ReturnsIffBackAtTop | config_lex.go:103-217 | for every text the lexer returns if and only if some number of NULs at the end of the input leads back to its main loop |
| LexerFacts.ReturnsIffClosed | config_lex.go:103-217 | outside Lua blocks it returns if and only if a nine-state automaton finds no comment, quote or `${` left open |
| LexerFacts.ReturnsIffClosedWithoutNames | config_lex.go:103-217 | on a text in which no name of a directive with its own lexer occurs, it returns if and only if that automaton finds nothing left open |
| LexerFacts.NoNameNoLua | config_lex.go:103-217 | no Lua block begins in a text in which no name of a directive with its own lexer occurs |
| LexerFacts.TokensArePlaced | config_lex.go:103-217 | at any point of any text every token emitted stands at an offset of its own, in order |
| LexerFacts.TokenLines | config_lex.go:57-217 | the tokens of a text stand in order at distinct offsets; words and comments are the slices found there; the line is one more than the newlines before, backslash-initial words aside |
| WrittenTokens.BlankIff | config_lex.go:128-130 | the white space, rune by rune |
| WrittenTokens.WrittenIsLexed | config_lex.go:103-217 | any text of words with escapes, strings in either quotation mark, comments, braces and semicolons, with any white space between them, is lexed to just those, each with its line; it is handed over if and only if a directive is written that has its own lexer; a word that the text ends is lost |
| WrittenTokens.VariableTakesSpace | config_lex.go:155-215 | white space right behind `${name}` is taken into the word |
| ConfigBuild.RuneIter.Next | config_build.go:15-21 | the rune at the cursor, or the end |
| ConfigBuild.Escape | config_build.go:36-59 | the loop computes the escaped form |
| ConfigBuild.EscapeFromKeeps | config_build.go:36-59 | escaping drops no rune and adds no other; the first rune stays first |
| ConfigBuild.EscapeFromPlain | config_build.go:36-59 | on strings without backslashes escaping is the identity |
| ConfigBuild.NeedsQuoteScan | config_build.go:69-146 | the scan with its three checks quotes exactly the empty string, strings with white space, braces, semicolons or quotation marks, and those whose escaped form has two dollars in a row behind its first rune |
| ConfigBuild.Enquote | config_build.go:61-67 | a string as printed: bare, or squeezed and quoted |
| ConfigBuild.Margin | config_build.go:217-224 | exactly padding times depth runes, none if that is negative, all of them spaces |
| ConfigBuild.BuildHead | config_build.go:183-198 | the directive and its arguments as printed |
| ConfigBuild.BuildStmt | config_build.go:179-208 | the text of a statement with its block |
| ConfigBuild.BuildBlock | config_build.go:171-215 | the loop and recursion print the text of the block behind the given output |
| ConfigBuild.Build | config_build.go:148-157 | a configuration printed from an empty output, or behind the header |
| PrintedLines.EachLineIsIndented | config_build.go:171-224 | the text, cut at its newlines, is the lines of its statements and closing braces, each behind exactly the indent for every block around it and beginning with another rune; comments and `if` have one space more |
| PrintedLines.HeadIsSpaced | config_build.go:183-198 | directive and arguments, each as a word, with one space between them |
| PrintedLines.HeaderIsAbove | config_build.go:148-157 | the header stands on lines of its own above the same text |
| GoStrings.QuoteReadBack | config_build.go:61-67 | what is printed between quotes is, by the Go specification, a literal of the string |
| GoStrings.QuotedIff | config_build.go:69-146 | a string without backslashes is quoted if and only if it is empty, holds white space, a brace, a semicolon or a quotation mark, all given by rune, or two dollars in a row behind its first rune |
| WordRoundTrip.ReadWord | config_lex.go:145-215 | a bare word printed between tokens becomes the pending token, up to an escape left open |
| WordRoundTrip.ReadQuoted | config_build.go:61-67 | a quoted string comes back as its image under squeezing and escaping |
| WordRoundTrip.ImageIsSelf | config_build.go:61-67 | that image is never shorter, and is the string itself exactly when its runes print and its backslashes come in fours |
| WordRoundTrip.StringRoundTrip | config_build.go:61-67 | printed, ended and lexed, a string gives back itself if and only if it is faithful, whatever the table of printing runes |
| PrintedTree.ReadStmt | config_build.go:173-212 | a printed statement is read as its words |
| PrintedTree.ReadBlock | config_build.go:171-215 | printing a block behind an output adds the block's words to those of the output |
| FormatRoundTrip.BlockNested | config_lex.go:226-253 | the tokens of a printed block are well nested |
| FormatRoundTrip.ParseBlockBack | config_parse.go:61-198 | parsing the words of a block, includes followed, gives back the block with the lines of its tokens, up to files and include indices |
| FormatRoundTrip.MergedText | config_build.go:176-178 | the printer cannot tell a block from the one with same-line comments run together |
| FormatRoundTrip.RoundTrip | config_build.go:171-215 | for every tree of the domain and every indent: the printed text is lexed if and only if it does not end in a comment, its braces balance, and parsing gives back the tree with same-line comments merged and the lines of the text |
| FormatRoundTrip.RoundTripIffSeparate | config_build.go:176-178 | with comments kept the tree itself comes back if and only if no two neighbouring comments share a line |
| PrintedLayout.NextLine | config_build.go:173-213 | the line the lexer records for the next printed statement, and the line its text ends on |
| PrintedLayout.LaidOut | config_build.go:171-215 | in a printed block read back, a comment is on its predecessor's line if and only if it was before and the predecessor is recorded with the line it ends on |
| PrintedLayout.FormatTwice | config_format.go:18-54 | formatting what was formatted, comments kept and includes followed, gives the same text if and only if no comment shares the line of a statement with a block right before it, or of one that begins with a bare backslash |
| PrintedLayout.FormatThrice | config_format.go:18-54 | formatting a third time gives the text of the second |
| PrintedLayout.CommentMoves | config_build.go:176-178 | a comment behind the closing brace of a one-line block moves to a line of its own |
| StrayWords.StrayIsNotReadBack | config_build.go:171-215 | wherever a configuration holds an `if` or a string that is not faithful: the words before the first are read back, and the word in its place is another |
| StrayWords.ReadBackIffSpoken | config_build.go:171-215 | a configuration without Lua blocks and misshapen comments is lexed to its words if and only if no statement at any depth is an `if`, all its strings are faithful, and it does not end in a comment |
| FormattedText.LexedIsTidy | config_lex.go:132-144 | no comment token of any text holds a newline |
| FormattedText.BlockNeat | config_parse.go:61-198 | in a parsed block, at all depths, comments are on one line, only comments have one, and includes that are followed name files |
| FormattedText.ParsedIsShapedIff | config_parse.go:61-198 | what is parsed from a text is in the domain of the tree theorems, words aside, if and only if no directive has a printer of its own and no statement named by a quoted `#` has arguments or a block |
| FormattedText.QuotedHashPrintsAsComment | config_build.go:175-180 | the statement of a quoted `#` and an argument is printed as an empty comment |
| FormattedText.FormattedIsReadIff | config_format.go:18-54 | a formatted text is lexed to the words that were parsed if and only if no statement is an `if`, all strings are faithful and no comment comes last |
| FormattedText.FormatTextTwice | config_format.go:18-54 | of such a text, formatting what was formatted gives the same text if and only if it was steady |
| ConfigParse.TokenIter.Next | config_parse.go:26-32 | the token at the cursor, or none |
| ConfigParse.Parsing.ReadArgs | config_parse.go:96-104 | arguments and comments up to a terminator, or none when the tokens run out |
| IfArguments.Compact | config_parse.go:312-319 | the arguments that are not empty, moved to the front in place |
| IfArguments.PrepareIfArgs | config_parse.go:308-321 | trims and compacts the arguments in place |
| IfArguments.UnwrappedIs | config_parse.go:308-321 | arguments without parentheses around them are kept; otherwise all parentheses that lead the first and end the last are taken off and nothing else, inner arguments stay in order, and none is empty |
| ConfigParse.Parsing.QueueIncludes | config_parse.go:118-179 | the files of an include are queued with its context and numbered from the length of the queue |
| ConfigParse.Parsing.ParseHead | config_parse.go:74-179 | the statement before its block, with what it queues and reports; an `if` without the parentheses around its condition |
| ConfigParse.Parsing.ParseStmt | config_parse.go:111-195 | a statement with its block and the comments among its arguments |
| ConfigParse.Parsing.ParseTurn | config_parse.go:63-196 | one turn of the loop |
| ConfigParse.Parsing.ParseInternal | config_parse.go:61-198 | statements, cursor, queue and reports, or a panic, as the recursive specification has them |
| DocumentOrder.ArgsAre | config_parse.go:96-104 | the arguments are the tokens before the first terminator that are no comments, and the comments the others |
| DocumentOrder.BlockTells | config_parse.go:61-198 | with nothing ignored, the statements of the tree in document order, with file, line and arguments, are those a flat reading of the tokens finds, and its comments, with file and line, are the comments of the tokens, none lost and none twice |
| BlockContexts.EnterIsPath | config_parse.go:298-306 | contexts are the blocks around a statement, but for what lies between an outermost `http` and the last `location` in it |
| BlockContexts.ContextsArePaths | config_parse.go:114-187 | every statement of a file is checked, and every file queued, in the context told from the blocks around it |
| BlockContexts.BlockReports | config_parse.go:118-169 | the includes reported as unresolved are those that no file can be found for, in document order |
| IgnoringIsPruning.IgnoringPrunes | config_parse.go:65-110 | on well-formed tokens, parsing with an ignore predicate gives the full parse pruned at all depths, with the same cursor and include indices; what it checks and queues is read off the full tree without the ignored statements, contexts starting afresh under them |
| IgnoringIsPruning.KeptCommentIsNotPruned | config_parse.go:88-110 | if comments are kept and the predicate is true of `#`, a list that begins with a comment is not pruned to what is parsed |
| IgnoringIsPruning.StopsAtMatch | config_parse.go:65-73 | the recursion, consuming or not, leaves the cursor behind the matching brace, found by counting depth |
| ParsedBlocks.BlockAccounted | config_parse.go:171-187 | with nothing ignored, the queue, the indices and the contexts checked are those read off the statements |
| ParsedBlocks.BlockRanked | config_parse.go:171-178 | whatever is ignored, the include indices rise in document order within the files queued |
| ContextFree.BlockAlike | config_parse.go:61-198 | context and queue length change nothing but include indices and contexts |
| IncludeWorklist.ParseInclude | config_parse.go:278-296 | one file: it fails if and only if it cannot be opened or its braces do not balance; otherwise what the parser gives on its tokens in its context |
| IncludeWorklist.Parse | config_parse.go:250-276 | on bounded includes the loop ends in the state of the step machine, wired, if and only if no file it reaches breaks it |
| IncludeWorklist.AlwaysWired | config_parse.go:171-178 | at every point of every run an index stored by file i is greater than i and in range, and no index is used twice |
| IncludeWorklist.StepShrinks | config_parse.go:264-271 | each step takes exactly one file off the unfolded includes still queued |
| IncludeWorklist.EndsIffBounded | config_parse.go:250-276 | the loop ends if and only if include chains are bounded and no file reached breaks it, and then after exactly the size of the unfolding |
| IncludeWorklist.CyclicIsUnbounded | config_parse.go:250-276 | files that include one another have no bound |
| IncludeWorklist.EndsIffAcyclic | config_parse.go:250-276 | the loop ends if and only if the root is in no set of files that include one another and no file it reaches breaks it |
| CombinedConfig.PerformInclude | config_parse.go:343-360 | the recursion ends, because indices point ahead, and splices the files in; a block that comes to no statement is nil |
| CombinedConfig.PerformIncludeStmt | config_parse.go:346-357 | one statement: its block combined, nil if that is empty, or the files it gives way to |
| CombinedConfig.SpliceFiles | config_parse.go:350-354 | the combined files at the given indices, one after the other |
| CombinedConfig.CombineParsedConfig | config_parse.go:323-341 | the combined tree of a finished run, the errors of its files in order and a failed status exactly when there are any; or a panic exactly when some file failed |
| CombinedConfig.AlwaysRecorded | config_parse.go:264-271 | each file was parsed with the context it was queued with, and its own queue follows in place |
| CombinedConfig.BlockLinked | config_parse.go:171-187 | whatever is ignored, the indices of a parsed block stand for the files its statements include, queued with their contexts |
| CombinedConfig.FileLinked | config_parse.go:171-187 | the same of each file of a run, within its own part of the queue |
| CombinedConfig.FileChained | config_parse.go:171-187 | with nothing ignored a file's indices are all of its part of the queue, in order, and it was checked in the contexts of its own tree |
| CombinedFacts.CombiningIsInlining | config_parse.go:343-360 | when every file parses, whatever is ignored, combining equals recursive inlining in place, which knows no indices |
| CombinedFacts.BracesAreKeptIff | config_parse.go:346-348 | a statement keeps its braces if and only if its block holds something else than includes of files that hold nothing else |
| CombinedFacts.CombinedBracesIff | config_parse.go:346-348 | the same of the combined files of a run |
| CombinedFacts.EmptyBlockIsDropped | config_parse.go:343-348 | a statement with an empty block is left without a block |
| CombinedFacts.IncludeLosesItsBlock | config_parse.go:346-357 | an include of an empty file with a statement in its block comes to nothing, though the statement was checked |
| CombinedFacts.BlockConserved | config_parse.go:343-360 | in one block, combined or dropped is what lasts of the block and of the files it includes |
| CombinedFacts.ContextsAreKept | config_parse.go:114-187 | over all files, with nothing ignored, each statement checked, with its context, is as often in the combined tree, with the fold of enterBlock along its ancestors there, or dropped with an include's block |
| CombinedFacts.SilentInlined | config_parse.go:343-360 | inlined, a block comes to no statement if and only if it holds only comments and includes of files that hold nothing else |
| CombinedFacts.NothingIsLostIffHarmless | config_parse.go:346-357 | every statement is kept in its context if and only if, in the files as parsed, the blocks of includes that name files are like that |
| CombinedFacts.BareIsHarmless | config_parse.go:346-357 | includes without blocks lose nothing |
| CombinedParse.EntriesAre | config_parse.go:264-296 | at every point of every run, what is recorded for the i-th file is told from its text, its context and the length of the queue at its turn: failed if and only if it cannot be opened or its braces do not balance |
| CombinedParse.SomeFailedIff | config_parse.go:264-296 | in a finished run a file failed if and only if the root reaches one that cannot be opened or whose braces do not balance |
| CombinedParse.ErrorsAre | config_parse.go:323-334 | the errors are the events that fail, each once, file after file and in order |
| CombinedParse.ParseCombined | config_parse.go:250-341 | on bounded includes: no result if and only if the root reaches a file that breaks the run, cannot be opened or does not balance; otherwise the root with all includes inlined and the errors of all files |
| ConfigAnalyze.Reverse | config_analyze.go:1558-1563 | the in-place swaps give the mirror image |
| ConfigAnalyze.TakeFlagMeans | config_analyze.go:10-17 | each of the eight flags admits its own number of arguments and no other |
| ConfigAnalyze.StyleFlagsMean | config_analyze.go:19-22 | `on` or `off` in any case; any number; at least one; at least two |
| ConfigAnalyze.ContextFlagsAdmitNothing | config_analyze.go:32-47 | the flags of contexts admit nothing by themselves |
| ConfigAnalyze.BlockFlagMeans | config_analyze.go:1513-1520 | a mask wants a semicolon; with the block flag it wants a brace and admits the same arguments |
| ConfigAnalyze.FlagsUnite | config_analyze.go:1521-1525 | flags taken together admit what one of them admits, so that the flags determine every mask |
| ConfigAnalyze.ContextKeysDiffer | config_analyze.go:1467-1472 | contexts with names free of commas have different keys |
| ConfigAnalyze.MirrorAdmits | config_analyze.go:1512-1534 | whether some mask admits does not depend on the order |
| ConfigAnalyze.Analyzer.Check | config_analyze.go:1510-1534 | a mask admits if and only if terminator and number of arguments fit; otherwise one reason for each mask |
| ConfigAnalyze.Analyzer.CheckArgs | config_analyze.go:1510-1548 | bad if and only if there are masks and none admits, whichever way round the slice stands |
| ConfigAnalyze.Analyzer.Analyze | config_analyze.go:1474-1548 | after any calls: unknown if and only if strict and not in the table; rejected if and only if known, in a known context, with arguments checked and no mask of the table as written admitting them; every slice stays the original or its mirror |
| FileCacheFacts.AlwaysWellKept | read_writer_closer_cache.go:146-169 | over all runs paths are distinct and the cache within its limit |
| FileCacheFacts.HandlesAreConserved | read_writer_closer_cache.go:39-187 | over all runs a handle is cached or closed as often as it was opened |
| FileCacheFacts.NothingLeaksOrClosesTwice | read_writer_closer_cache.go:39-187 | a handle opened once is cached once, or was closed once, never both |
| FileCacheFacts.EntriesByLastUse | read_writer_closer_cache.go:125-169 | at all times the entries stand in the order of their last use |
| FileCacheFacts.LargerCacheIncludes | read_writer_closer_cache.go:85-169 | on the same run the recency list of a smaller cache is a subsequence of that of a larger one, so its hits are hits there |
| CacheLaws.CachedIff | read_writer_closer_cache.go:85-187 | a path is cached after an operation if and only if the operation put it in, or it was cached and neither closed, deleted nor last in a full cache that a new path is put in |
| CacheLaws.CachedIsLastPut | read_writer_closer_cache.go:146-169 | at all times a cached path has the handle of its last `Put` |
| CacheLaws.UsesAreCounted | read_writer_closer_cache.go:138-144 | at all times the use map has exactly the paths used since they were last dropped, with the number of uses |
| FileCacheImpl.HashFinds | read_writer_closer_cache.go:128-132 | the hash finds what a search of the list would find |
| FileCacheImpl.FileCache.Hit | read_writer_closer_cache.go:138-144 | one more use |
| FileCacheImpl.FileCache.MoveToFront | read_writer_closer_cache.go:133-155 | the node's entry goes first, the others keep their order |
| FileCacheImpl.FileCache.DeleteUnsafe | read_writer_closer_cache.go:39-48 | closes the file and forgets the path everywhere |
| FileCacheImpl.FileCache.Get | read_writer_closer_cache.go:125-136 | finds, refreshes and counts, as the value model |
| FileCacheImpl.FileCache.Delete | read_writer_closer_cache.go:85-93 | deletes the keys one by one, as the value model |
| FileCacheImpl.FileCache.Replace | read_writer_closer_cache.go:154-158 | a cached path gets another handle in place, and the one it had is closed |
| FileCacheImpl.FileCache.MakeRoom | read_writer_closer_cache.go:160-162 | drops the last node of a full list |
| FileCacheImpl.FileCache.Add | read_writer_closer_cache.go:159-166 | a new path goes first, once there is room |
| FileCacheImpl.FileCache.Put | read_writer_closer_cache.go:146-169 | as the value model, also when the opener fails |
| FileCacheImpl.FileCache.Close | read_writer_closer_cache.go:171-187 | closes every cached handle, keeps the use counts |
| CacheSweep.StepKeeps | read_writer_closer_cache.go:50-93 | every interleaved step keeps the invariant |
| CacheSweep.NothingHidesFromTheSweep | read_writer_closer_cache.go:50-93 | in every interleaving, with the lock free each cached path is in the use map or in the pending junk; at rest, in the use map |
| CacheSweep.ProgramIsOperation | read_writer_closer_cache.go:85-187 | run alone, the steps of an operation do to hash and use map what the operation does |
| ConnManager.Manager.Track | ngx_http_core_conn_manager.go:157-168 | adds to the counter of the state; Closed has none |
| ConnManager.Manager.SetState | ngx_http_core_conn_manager.go:140-147 | records a state for a connection in the map only |
| ConnManager.Manager.ManageConnState | ngx_http_core_conn_manager.go:60-106 | an event runs the program of atomic updates that the interleaved model uses |
| ConnManager.Manager.CloseConn | ngx_http_core_conn_manager.go:110-119 | acts on hijacked connections only, by its program |
| ConnManager.Manager.GetStatus | ngx_http_core_conn_manager.go:47-53 | takes and zeroes three counters; the hijacked one stays and is not reported |
| ConnManager.Manager.ConnContext | ngx_http_core_conn_manager.go:188-191 | the connection enters the map as new |
| ConnCounting.EventBalances | ngx_http_core_conn_manager.go:60-106 | a legal event changes the counters as it changes the connection's classes |
| ConnCounting.AlwaysBalanced | ngx_http_core_conn_manager.go:47-172 | in every interleaving, with any number of CloseConn calls under way, snapshots taken and counters add up to memberships less the updates in flight and less the repeated closes |
| ConnCounting.HijackedIsNeverTaken | ngx_http_core_conn_manager.go:47-53 | no snapshot takes from the hijacked counter |
| ConnCounting.ExactAtQuiescence | ngx_http_core_conn_manager.go:47-172 | with nothing in flight the sums are the numbers of connections; open is new, active, idle and hijacked together; open and hijacked are short by the repeated closes |
| ConnCounting.ExactIffNeverAgain | ngx_http_core_conn_manager.go:110-119 | with nothing in flight, open and hijacked are exact if and only if no CloseConn was called on a connection that an earlier one had yet to remove |
| ConnCounting.TwoClosesCountTwice | ngx_http_core_conn_manager.go:110-119 | a run of two overlapping CloseConn calls ends with both counters at minus one and no connection |
| RateLimit.Leaky.Take | ngx_http_rate_limit.go:24-36 | refill when due, then take or refuse |
| RateLimit.AlwaysSane | ngx_http_rate_limit.go:24-36 | the remaining amount never exceeds the capacity and never falls below zero |
| RateLimit.RefillsApart | ngx_http_rate_limit.go:27-30 | two refills are more than the rate apart |
| RateLimit.FirstWindowIs | ngx_http_rate_limit.go:24-36 | until the reset time a call is allowed if and only if its amount and those taken fit what remained; then the first refill |
| RateLimit.RefillIff | ngx_http_rate_limit.go:27-30 | the next refill comes with the first call whose first reading of the clock is beyond the second reading of the last refill by more than the rate |
| RateLimit.AllowedIff | ngx_http_rate_limit.go:31-35 | a call is allowed if and only if its amount and those taken since the last refill fit the capacity |
| RateLimit.RateBound | ngx_http_rate_limit.go:24-36 | in any interval of length L at most a bucketful for one and each further window succeeds |
| RateLimit.WindowsIsQuotient | ngx_http_rate_limit.go:27-30 | the windows in L are (L-1)/(rate+1)+1 |
| RateLimit.RateBoundQuotient | ngx_http_rate_limit.go:24-36 | the bound (L/rate+2) times capacity/amount |
| RateLimit.BoundAttained | ngx_http_rate_limit.go:24-36 | for every limiter and length some run reaches the sharper bound exactly |
| RateLimit.BoundedIff | ngx_http_rate_limit.go:24-36 | there is a bound if and only if nothing fits, or the amount is at least one and the rate not negative |
| RateLimit.RateManager.Setup | ngx_http_rate_limit.go:52-71 | the limiter of a key in a zone: the one there is, a new one with nothing set for the first key, one with the rate as capacity otherwise |
| RateLimit.ZonesDoNotLimit | ngx_http_rate_limit.go:52-71 | limiters made by setup allow every call, or none under a negative rate |
| TxnActor.Actor.Handle | opa_backend_store.go:73-101 | the reply and the transaction after an event, and whether the goroutine returns |
| TxnActor.RepliesGoToTheirCallers | opa_backend_store.go:65-111 | in every interleaving of known events at most one call waits while the actor lives, only it can be handed a reply, and answers are those of the events in order of acceptance |
| TxnActor.NothingAfterTheEnd | opa_backend_store.go:65-103 | once the actor is gone no call is accepted or answered |
| TxnActor.EndingCallWaitsForever | opa_backend_store.go:98-111 | the call that commits or aborts is never answered |
| TxnActor.StolenReply | opa_backend_store.go:74-111 | in any list of calls, one with an unknown name can take the reply to any other |
| TxnActor.OwnRepliesIffNotMixed | opa_backend_store.go:65-111 | in every interleaving each reply goes to its own caller if and only if no call with an unknown name is made beside a read, a write or an id |
| TxnActor.ReadsAre | opa_backend_store.go:75-84 | a read gets the last write taken before it, if the transaction takes writes and the key can be written, and otherwise what the database held |
| TxnActor.WritesAre | opa_backend_store.go:85-92 | a write is done if and only if the transaction takes writes and the key can be written |
| TxnActor.IdsAre | opa_backend_store.go:93-97 | every id is the one there was, or else the read timestamp |
| TxnActor.StoreTxn.NewTxn | opa_backend_store.go:132-139 | the parameters asked for are not stored |
| TxnActor.StoreTxn.Start | opa_backend_store.go:47-63 | an update or a view, by the stored parameters |
| TxnActor.NewTransaction | opa_backend_store.go:132-139 | whatever is asked for, a view is started |
| TxnActor.EveryTransactionIsReadOnly | opa_backend_store.go:47-139 | over all runs of all transactions no write is answered as done and the database stays as it was |
| TxnActor.EveryWriteIsRefused | opa_backend_store.go:85-92 | every write that is answered is refused as read-only |
| TxnActor.EveryAnswerIsOfTheDatabase | opa_backend_store.go:47-139 | over all runs of all transactions, answered reads get what the database held and answered ids the read timestamp |
| RaftKeys.BigEndianKeepsOrder | raft_badger_store.go:160-164 | big-endian bytes are ordered as the numbers |
| RaftKeys.EntryKeyIsomorphism | raft_badger_store.go:160-174 | entry keys are an order isomorphism, undone by parsing |
| RaftKeys.EntryKeyOnto | raft_badger_store.go:160-174 | every key of fourteen bytes with the entry prefix is the key of the index it parses to |
| RaftKeys.ForeignKeyApart | raft_badger_store.go:160-174 | a key without the entry prefix lies before all entry keys or behind all of them |
| RaftKeys.StableBehindEntries | raft_badger_store.go:14-16 | stable keys are no entry keys and come behind all of them |
| RaftStore.SeekForward | raft_badger_store.go:95-119 | a forward seek finds the least index not below the target, and misses only if there is none |
| RaftStore.SeekReverse | raft_badger_store.go:95-119 | a reverse seek finds the greatest index not above the target, and misses only if there is none |
| RaftStore.StorePut | raft_badger_store.go:136-144 | an entry written is read back, others and stable values stay |
| RaftStore.StablePut | raft_badger_store.go:31-35 | a stable value written is read back, entries stay |
| RaftStore.Store.Set | raft_badger_store.go:31-35 | changes one stable key, no entry |
| RaftStore.Store.Get | raft_badger_store.go:37-48 | the stable value, or not found |
| RaftStore.Store.SetUint64 | raft_badger_store.go:50-54 | stores eight big-endian bytes |
| RaftStore.Store.GetUint64 | raft_badger_store.go:56-71 | reads back what SetUint64 stored; zero for a missing key; panics on fewer than eight bytes |
| RaftStore.Store.SeekEntry | raft_badger_store.go:95-119 | the index under the iterator, if among the entries |
| RaftStore.Store.LastIndex | raft_badger_store.go:91-93 | the maximum index, or an error exactly on an empty log |
| RaftStore.Store.GetLog | raft_badger_store.go:121-134 | the entry at an index, or not found |
| RaftStore.Store.StoreLog | raft_badger_store.go:136-144 | changes one index, no stable value |
| RaftStore.Store.StoreLogs | raft_badger_store.go:145-158 | of several logs with one index the last is stored |
| RaftStore.Store.CollectRange | raft_badger_store.go:180-203 | the scan that stops at the first index beyond collects the keys of the range and no others |
| RaftStore.Store.DeleteRange | raft_badger_store.go:206-225 | removes exactly the indices of the range |
| RedirectUri.ValidateUri | oauth2_server.go:795-835 | accepted if and only if both addresses are there and parse, have no fragment and the same scheme and host, and the paths are equal or the redirect is the base path without trailing slashes, a slash and a rest without `..` segments; the reason for a refusal is true |
| RedirectUri.AcceptedIff | oauth2_server.go:795-835 | the if-and-only-if for the verdict, over the parsed parts |
| RedirectUri.ReasonHolds | oauth2_server.go:795-835 | whatever the verdict says holds of the addresses |
| RedirectUri.ItemsMakeTheList | oauth2_server.go:775-780 | the items of a list, joined, are the list, and none holds the separator |
| RedirectUri.ValidateUriList | oauth2_server.go:774-788 | accepts if and only if some item of the list does |
| RedirectUri.StaysBelow | oauth2_server.go:824-833 | without `..` behind a directory, the resolved path extends the directory's own resolution |
| RedirectUri.PlainIsResolved | oauth2_server.go:824-833 | removing dot segments leaves an absolute path without them alone |
| RedirectUri.RedirectIsContained | oauth2_server.go:795-835 | an accepted redirect has the base's scheme and host, no fragment, and the base's path or one that, with dot segments removed (section 5.2.4 of RFC 3986), lies below the base path without its trailing slashes |

## Left out

- The domain of the tree round trip: directives without Lua blocks, comments without newlines and without arguments or blocks of their own. Within it the conditions are exact. Equality is up to file and include indices.
- PrintedLines.EachLineIsIndented: stated for blocks without Lua statements and with comments on one line; it asks that the table of printing runes leave out the newline.
- WrittenTokens.WrittenIsLexed: words do not begin with a backslash, whose line is not recorded, and hold no `${`.
- PrintedLayout.FormatTwice: asks that the table of printing runes leave out the newline, as that of strconv.IsPrint does.
- FormattedText.FormatTextTwice: asks the same.
- Lua blocks: the lexer discards the tokens it makes of them; their text is printed as in the source, and no law is stated of it.
- IncludeWorklist.ParseInclude: a file with a Lua block counts as one that breaks the run, because the Lua lexers are not modelled.
- CombinedConfig.PerformInclude: statements are values, so the update of `Blocks` in place is an update of values; no statement is reached twice, because no index is.
- CombinedFacts.ContextsAreKept: stated with nothing ignored, because files queued from ignored blocks are checked but belong to no place of the combined tree.
- Error texts, and the contents of the directive table.
- FileCacheImpl.FileCache.Put: list nodes are addresses into a map held by the cache, so sharing of nodes with other owners is not modelled; the order of the deferred unlock and of closing is that of one locked call.
- The choice of paths by the background scan: it may come upon any path, which covers counts below the minimum and files that no longer exist.
- IgnoringIsPruning.IgnoringPrunes: stated for token lists without comments among arguments, because the comments of an ignored statement are dropped with it. The parser does not put comments to the predicate, so where comments occur and are kept the predicate must not be true of `#`; `KeptCommentIsNotPruned` shows why.
- `connManager.Close` and `graceful`: shutdown paths that drop records without touching counters.
- ConnCounting.AlwaysBalanced: connections follow the transitions of net/http.
- RateLimit.RateManager.Setup: one call at a time; two first calls for a zone at once could make two maps for it.
- TxnActor.RepliesGoToTheirCallers: key and value size limits of the database are not modelled.
- `FirstIndex` and its cache, the state machine, snapshots and the database itself: an ordered map stands in for it, and an injective encoding for JSON.
- The OAuth2 flows, user and token storage, request routing, metrics, logging, templates, process management and the command line.
