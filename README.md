# TAU LLVM plugin: instrumentation selection

This project models how the TAU LLVM pass plugin decides which functions (or call
sites) receive profiling hooks. It covers two revisions of the pass.

- **The current revision** (`TAUInstrument`):
  - It reads a configuration file with four sections: function include, function
    exclude, file include and file exclude.
  - Function lines holding `#` are compiled into regex sources, and so are file lines
    holding `*` or `?`. Every other line is kept as a literal.
  - A function is selected when its source file passes the file rules and its
    demangled name passes the function rules.
- **The legacy revision** (`Instrument`):
  - It reads only two sections, with its own blank-line handling and a shared error
    flag.
  - Its wildcard lines are searched as substrings, and `#` stands for exactly one
    character.
  - It selects call sites, not function bodies, and also accepts a `caller/callee`
    literal.

The project is made of these modules:

- `Common`: blank-line tests, the structural diagnostics and small shared lemmas.
- `Host`: the command-line options with their defaults, and the runtime services the
  pass calls into (std::regex matching and searching, the demangler), as three given
  functions.
- `PatternCompiler`: the per-character rewrites done by `regex_replace`.
- `RegexSubset`: a concrete full-match meaning for the regexes the compiler produces.
- `Wildcards`: what compiled wildcard lines match.
- `TauConfig`, `TauSelect` and `TauPass`: the current revision.
  - `TauConfig` is the loader, as functions.
  - `TauSelect` is the decision, as predicates.
  - `TauPass.TauInstrument` is the pass object. Its methods change its eight
    collections with the original's loops.
- `LegacyConfig`, `LegacySelect` and `LegacyPass`: the legacy revision, organised the
  same way.
- `Scenarios`: worked examples on concrete files and names.

The central definitions, which the rows below reach through their lemmas and methods:

- `PatternCompiler.CompileFunctionPattern`: lib/TAUInstrument.cpp:375-397.
- `PatternCompiler.CompileFilePattern`: lib/TAUInstrument.cpp:348-360.
- `PatternCompiler.FunctionEntry`: lib/TAUInstrument.cpp:321-404.
- `TauConfig.LoadFrom`: lib/TAUInstrument.cpp:422-483.
- `TauSelect.Selected`: lib/TAUInstrument.cpp:163-212.
- `LegacyConfig.LegacyLoadFrom`: lib/Instrument.cpp:184-248.
- `LegacySelect.LegacySelected`: lib/Instrument.cpp:295-319.
- `LegacyPass.SavedCalls`: lib/Instrument.cpp:259-269.

The configuration file is the sequence of lines `std::getline` yields. A file that
cannot be opened reads as no lines. Each compiled regex is kept as its source string.

## Model

| member | source | states |
|---|---|---|
| TauPass.TauInstrument.constructor | lib/TAUInstrument.h:80-86 | the file is loaded only when an input file is named; otherwise all eight collections stay empty and nothing is reported |
| TauPass.TauInstrument.LoadFunctionsFromFile | lib/TAUInstrument.cpp:422-483 | the loader loop leaves the collections and the diagnostics exactly as the loader's specification `LoadFrom` says |
| TauPass.TauInstrument.ReadUntilToken | lib/TAUInstrument.cpp:301-415 | reading one section changes only that section's list, into what `ReadSection` gives; the stream resumes after the END token; an UnclosedSection report is added exactly when the file ended first |
| TauPass.TauInstrument.ReadLine | lib/TAUInstrument.cpp:309-404 | one line of the section loop: it ends the section exactly when it is the non-blank END token, and otherwise the list grows as `AfterLine` says |
| TauPass.TauInstrument.Store | lib/TAUInstrument.cpp:321-404 | a literal goes into the list's literal set and a pattern is appended to its pattern vector; the other lists are untouched |
| TauPass.TauInstrument.RegexFits | lib/TAUInstrument.cpp:220-242 | the early-return loop answers `Fits`: a command-line hit (only when `cli` holds), or a full match of some list pattern |
| TauPass.TauInstrument.MaybeSaveForProfiling | lib/TAUInstrument.cpp:163-212 | the method's boolean equals the decision predicate `Selected` on the loaded lists |
| TauPass.TauInstrument.RunOnFunction | lib/TAUInstrument.cpp:136-154 | false in dry-run mode; otherwise true exactly when the function is selected |
| TauConfig.Config.With | lib/TAUInstrument.h:53-65 | replacing one of the four lists changes that list alone |
| TauConfig.EndTokenKinds | lib/TAUInstrument.cpp:48-55 | the END tokens are never blank, and exactly the two file lists' tokens contain an 'F' |
| TauConfig.ReadSection | lib/TAUInstrument.cpp:306-314 | reading resumes after the section's start; a closed section ended on its token; an unclosed one read to the end of the file |
| TauConfig.ReadSectionMeaning | lib/TAUInstrument.cpp:306-414 | a section stores, in order, exactly its non-blank lines before the first END token; the token is not stored; closed exactly when the token was found |
| TauConfig.AddAllSplits | lib/TAUInstrument.cpp:321-404 | storing is append-only, and each line lands in exactly one collection: its literal in the set, or its pattern at the end of the vector |
| TauConfig.AddAllLiterals | lib/TAUInstrument.cpp:321-404 | the literal set after a section is the old set plus the literals of its lines |
| TauConfig.AddAllPatterns | lib/TAUInstrument.cpp:321-404 | the pattern vector after a section is the old vector followed by its lines' patterns, in file order |
| TauConfig.ReadSectionGrows | lib/TAUInstrument.cpp:301-415 | reading a section never drops an existing literal and only appends patterns |
| TauConfig.LoadFromExtends | lib/TAUInstrument.cpp:436-479 | loading is append-only: repeated sections add to the same lists, and earlier reports stay at the front |
| TauConfig.StrayLinesStoreNothing | lib/TAUInstrument.cpp:441-481 | top-level lines that open no section store nothing, and each non-blank one adds one WrongSyntax report |
| TauConfig.LoadClosedSection | lib/TAUInstrument.cpp:301-415 | a closed section's non-blank lines are added to its list, nothing is reported, and loading resumes after the END token |
| TauConfig.LoadUnclosedSection | lib/TAUInstrument.cpp:306-414 | a section cut off by the end of the file keeps what it read and adds one UnclosedSection report, because `rc` is never cleared |
| TauConfig.LoadOneLineSection | lib/TAUInstrument.cpp:301-415 | a closed one-line section stores that line's entry and loading goes on after the token |
| TauConfig.LoadOneLineUnclosed | lib/TAUInstrument.cpp:301-415 | a one-line section at the end of the file stores its entry and adds one UnclosedSection report |
| TauConfig.BeginTokenOpens | lib/TAUInstrument.cpp:434-481 | each of the four BEGIN tokens opens its own list, and no other line does |
| TauSelect.EmptyNameNeverSelected | lib/TAUInstrument.cpp:176-183 | a name that demangles to "" is rejected before any list is looked at |
| TauSelect.NoFileRulesAllowAll | lib/TAUInstrument.cpp:185-189 | with all four file collections empty every file passes, "" included |
| TauSelect.FileRuleMeaning | lib/TAUInstrument.cpp:190-199 | otherwise a file passes exactly when the include list is empty or names it (literally or by full match), and the exclude list does not |
| TauSelect.FileTestIgnoresCli | lib/TAUInstrument.cpp:192-199 | the file test never consults the command-line regexes |
| TauSelect.CliOnlyWhenAsked | lib/TAUInstrument.cpp:224-239 | the command-line regexes count only when `cli` holds and their option is not empty; otherwise `regexFits` is the list's full-match test |
| TauSelect.SelectedMeaning | lib/TAUInstrument.cpp:176-211 | selected exactly when the name is not empty, the file passes, the name is included by literal or pattern, excluded by neither, and no command-line regex finds it |
| TauSelect.CliHitRejects | lib/TAUInstrument.cpp:206-207 | a command-line hit rejects, because the exclude test also passes `cli = true` |
| TauSelect.NoIncludeRulesSelectNothing | lib/TAUInstrument.cpp:201-211 | with an empty function include list nothing is selected |
| TauSelect.ExcludeWins | lib/TAUInstrument.cpp:195-207 | a name or file excluded by literal or pattern is never selected |
| Host.EmptyOptionsNeverHit | lib/TAUInstrument.h:35-44 | with both regex options at their default "" the command-line regexes never hit |
| PatternCompiler.CollapseOpenParen | lib/TAUInstrument.cpp:322-328 | the '(' rewrite deletes white space only and never lengthens the line; a line without '(' is unchanged. The Split, Pair, Keeps, Single and Repeated lemmas below fix its result on every line |
| PatternCompiler.CollapseCloseParen | lib/TAUInstrument.cpp:323-331 | the ')' rewrite deletes white space only; a line without ')' is unchanged. The Split, Pair, Keeps, Single and Repeated lemmas below fix its result on every line |
| PatternCompiler.CollapseParens | lib/TAUInstrument.cpp:321-336 | the clean-up deletes white space only; a line without parentheses is left as read |
| PatternCompiler.CollapseOpenParenSplit | lib/TAUInstrument.cpp:322-328 | the '(' rewrite works piece by piece on a line cut anywhere except between a '(' and a white-space character after it: no match spans the cut |
| PatternCompiler.CollapseOpenParenPair | lib/TAUInstrument.cpp:322-328 | a '(' followed by one white-space character loses that character |
| PatternCompiler.CollapseOpenParenKeeps | lib/TAUInstrument.cpp:322-328 | a '(' followed by any other character keeps both |
| PatternCompiler.CollapseOpenParenSingle | lib/TAUInstrument.cpp:322-328 | a single character is kept by the '(' rewrite |
| PatternCompiler.CollapseCloseParenSplit | lib/TAUInstrument.cpp:323-331 | the ')' rewrite works piece by piece on a line cut anywhere except between a white-space character and a ')' after it |
| PatternCompiler.CollapseCloseParenPair | lib/TAUInstrument.cpp:323-331 | a white-space character directly before ')' is removed |
| PatternCompiler.CollapseCloseParenKeeps | lib/TAUInstrument.cpp:323-331 | two characters whose second is not ')' are both kept |
| PatternCompiler.CollapseCloseParenSingle | lib/TAUInstrument.cpp:323-331 | a single character is kept by the ')' rewrite |
| PatternCompiler.CollapseOpenParenRepeated | lib/TAUInstrument.cpp:322-328 | in `((` followed by white space only the blank after the second '(' goes, because the first '(' is followed by a '(' |
| PatternCompiler.CollapseCloseParenRepeated | lib/TAUInstrument.cpp:323-331 | of two white-space characters before ')' only the second goes, because matches do not overlap |
| PatternCompiler.CollapseParensSignature | lib/TAUInstrument.cpp:321-331 | a line such as `foo( int )` is stored as `foo(int)`: the blank after '(' and the blank before ')' go, and the name and argument text are kept |
| PatternCompiler.ReplaceCharAbsent | lib/TAUInstrument.cpp:375-397 | a replacement whose character is absent changes nothing |
| PatternCompiler.ReplaceCharAppend | lib/TAUInstrument.cpp:375-397 | a replacement acts on each part of a concatenation separately |
| PatternCompiler.FunctionEntryKind | lib/TAUInstrument.cpp:372-404 | a function line becomes a pattern exactly when it holds '#'; a line without parentheses is stored as read, or compiled as read |
| PatternCompiler.FileEntry | lib/TAUInstrument.cpp:341-369 | a file line becomes a pattern exactly when it holds '*' or '?'; a literal keeps the line verbatim |
| Wildcards.FunctionPatternRenders | lib/TAUInstrument.cpp:375-397 | the escape passes and the '#' pass of a function line are one per-character encoding into regex tokens |
| Wildcards.FunctionPatternMeaning | lib/TAUInstrument.cpp:372-404 | a plain compiled function line is read back as its tokens, and matches what they admit |
| Wildcards.FilePatternRenders | lib/TAUInstrument.cpp:348-360 | the '*' and '?' passes of a file line are one per-character encoding into regex tokens |
| Wildcards.FilePatternMeaning | lib/TAUInstrument.cpp:341-369 | a plain compiled file line is read back as its tokens, and matches what they admit |
| Wildcards.SingleWildcardMeaning | lib/TAUInstrument.cpp:372-404 | the function line a#b full-matches exactly the names a + x + b, for any x without a line terminator |
| Wildcards.StarDotSuffixMeaning | lib/TAUInstrument.cpp:348-364 | the file line "*." + w full-matches exactly the names that end in w after at least one character, because '.' is not escaped |
| Wildcards.StarDotSuffixRejects | lib/TAUInstrument.cpp:348-364 | a file name that does not end in w is never matched by "*." + w |
| Wildcards.QuestionMarkMeaning | lib/TAUInstrument.cpp:348-364 | the file line a?b full-matches a + b and a + c + b, for any one character c, and nothing else |
| RegexSubset.MatchesIffCut | lib/TAUInstrument.cpp:235-239 | the backtracking full match and the reading of a match as a cut into one piece per token agree on every subject |
| RegexSubset.ParseRender | lib/TAUInstrument.cpp:375-397 | rendering tokens into regex source and reading the source back gives the same tokens |
| LegacyConfig.LegacyReadSection | lib/Instrument.cpp:190-208 | reading resumes after the start; a closed section ended on its END token; an unclosed one read to the end of the file |
| LegacyConfig.LegacyReadSectionMeaning | lib/Instrument.cpp:189-231 | a section stores exactly its non-blank lines before the END token, split by '#' between the two sets of its side |
| LegacyConfig.LegacyAddAllCons | lib/Instrument.cpp:189-231 | storing a line and then the rest equals storing all of them |
| LegacyConfig.LegacyFlagSilences | lib/Instrument.cpp:186-237 | once any section has been closed, no later report is an UnclosedSection report, because `rc` is never set back |
| LegacyConfig.LegacyStrayLines | lib/Instrument.cpp:187-245 | without a BEGIN token, nothing is stored and every line, blank ones included, adds a WrongSyntax report |
| LegacyPass.Instrument.constructor | lib/Instrument.cpp:172-177 | the file is loaded only when an input file is named |
| LegacyPass.Instrument.LoadFunctionsFromFile | lib/Instrument.cpp:184-248 | the nested loops, with the shared `rc` flag, leave the four sets and the diagnostics exactly as `LegacyLoadFrom` says |
| LegacyPass.Instrument.ReadList | lib/Instrument.cpp:190-208 | one inner loop stores what `LegacyReadSection` says and reports whether it found the END token |
| LegacyPass.Instrument.RegexFits | lib/Instrument.cpp:327-347 | the method answers `LegacyFits`: a command-line hit, or some wildcard line found by std::search |
| LegacyPass.Instrument.MaybeSaveForProfiling | lib/Instrument.cpp:295-319 | a direct call is appended exactly when its callee is selected; nothing else changes `calls` |
| LegacyPass.Instrument.CollectCalls | lib/Instrument.cpp:259-269 | the walk over blocks and instructions gathers exactly `SavedCalls` |
| LegacyPass.Instrument.RunOnFunction | lib/Instrument.cpp:254-286 | false in dry-run mode; otherwise true exactly when at least one call was gathered |
| LegacyPass.SavedInBlockSound | lib/Instrument.cpp:259-269 | every entry from one block is a selected direct call of that block, under its callee name |
| LegacyPass.SavedInBlockComplete | lib/Instrument.cpp:259-269 | every selected direct call of the block has an entry |
| LegacyPass.SavedInBlockOrdered | lib/Instrument.cpp:259-269 | one block's entries are in increasing instruction order |
| LegacyPass.SavedInBlockMeaning | lib/Instrument.cpp:259-269 | one block's entries are exactly its selected direct calls, under their callee names, in order |
| LegacyPass.SavedCallsMeaning | lib/Instrument.cpp:259-269 | the walk gathers exactly the function's selected direct calls, each under its callee name, in instruction order |
| LegacySelect.SearchFrom | lib/Instrument.cpp:336-344 | std::search returns the first offset at which the needle fits, or the end when it fits nowhere |
| LegacySelect.HashFitsMeaning | lib/Instrument.cpp:336-344 | a non-empty wildcard line fits a name exactly when it lies over some stretch of the name, each '#' over exactly one character |
| LegacySelect.CalleeName | lib/Instrument.cpp:297-303 | the demangled callee name, or the raw name when demangling gives "" |
| LegacySelect.LegacySelectedMeaning | lib/Instrument.cpp:305-317 | selected exactly when included by literal, by `caller/callee` literal or by wildcard, excluded by neither, and no command-line regex finds the callee |
| LegacySelect.LegacyCliHitRejects | lib/Instrument.cpp:327-333 | a command-line hit rejects, because `regexFits` also serves the exclude test |
| LegacySelect.LegacyExcludeWins | lib/Instrument.cpp:308-317 | an excluded callee is never selected |
| LegacySelect.CallerKeySelects | lib/Instrument.cpp:305-310 | listing `caller/callee` selects the calls from that caller when nothing excludes the callee |
| Scenarios.TwoSectionFile | lib/TAUInstrument.cpp:422-483 | an include section with one '#' line and an exclude section with one literal load into exactly one pattern and one literal, with no report |
| Scenarios.ComputeDecisions | lib/TAUInstrument.cpp:163-212 | with the file `compute_#` included and `compute_debug` excluded: compute_fast is selected, compute_debug and other are not |
| Scenarios.OneIncludeOneExclude | lib/TAUInstrument.cpp:201-211 | with one include pattern and one excluded literal, a name is selected exactly when it is not empty, matches the pattern, and is not the excluded one |
| Scenarios.GarbageOnly | lib/Instrument.cpp:239-245 | a single line that opens no section stores nothing in either revision and adds one WrongSyntax report |
| Scenarios.EmptyLineAtTopLevel | lib/Instrument.cpp:187-245 | an empty top-level line is skipped by the current loader but reported by the legacy one |
| Scenarios.GarbageLineExample | lib/Instrument.cpp:239-245 | the file holding only `garbage line` stores nothing and adds one WrongSyntax report, in both revisions |
| Scenarios.RcContrastExample | lib/Instrument.cpp:186-237 | a closed include section followed by an exclude section cut off by the end of the file: the current loader reports it, the legacy one does not |
| Scenarios.UnclosedAfterClosed | lib/Instrument.cpp:186-237 | after a closed section, an unclosed one is reported by the current loader but not by the legacy one; both keep its entries |
| Scenarios.DoubleOpenParen | lib/TAUInstrument.cpp:322-331 | `(( x` is stored as `((x` |
| Scenarios.DoubleBlankBeforeClose | lib/TAUInstrument.cpp:322-331 | `x  )` is stored as `x )` |
| Scenarios.CliRegexRejectsListedName | lib/TAUInstrument.cpp:206-207 | a name the command-line regex finds is rejected even when listed, in both revisions |
| Scenarios.LegacyHashOne | lib/Instrument.cpp:336-344 | `foo#bar` is found in `xfooZbarx` |
| Scenarios.LegacyHashNotNone | lib/Instrument.cpp:336-344 | the legacy '#' cannot stand for no character |
| Scenarios.LegacyHashNotSeveral | lib/Instrument.cpp:336-344 | the legacy '#' cannot stand for several characters |
| Scenarios.QuestionMarkNone | lib/TAUInstrument.cpp:348-364 | the file line `io?_h` matches `io_h` |
| Scenarios.QuestionMarkOne | lib/TAUInstrument.cpp:348-364 | the file line `io?_h` matches `ios_h` |
| Scenarios.QuestionMarkNotTwo | lib/TAUInstrument.cpp:348-364 | the file line `io?_h` does not match `iost_h` |
| Scenarios.StarDotCppDotIsWildcard | lib/TAUInstrument.cpp:348-364 | `*.cpp` also matches `a/bxcpp`, because the '.' is a regex wildcard |
| Scenarios.StarDotCppRejectsBak | lib/TAUInstrument.cpp:348-364 | `*.cpp` does not match `a/b.cpp.bak` |
| Scenarios.FooBarEmptyMiddle | lib/TAUInstrument.cpp:372-404 | the function line `foo#bar` matches `foobar` |
| Scenarios.FooBarNeedsBothEnds | lib/TAUInstrument.cpp:372-404 | the function line `foo#bar` does not match `fooba` |

## Left out

- IR mutation is not modelled: `addInstrumentation`, `getVoidFunc`, the IRBuilder and
  the instruction walks that insert the start and stop calls. Only the boolean results
  are kept. The current revision's `addInstrumentation` always reports a change. The
  legacy one reports whether any call was gathered.
- Pass and plugin registration and the new pass manager's `run` wrapper are framework
  glue.
- The demangler (`normalize_name`, `abi::__cxa_demangle`) is a foreign call. It is
  the given function `normalizeName`, which may return "".
- Source-file resolution through the debug location or the module's source name is
  not modelled. The file name is an input.
- The std::regex engine is a given function. The regexes the compiler produces get a
  concrete meaning only inside the subset `(.*)`, `(.?)`, `.`, escaped metacharacters
  and plain characters. Lines holding other metacharacters stay abstract.
- `std::regex_error`, which a malformed line or option throws, is not modelled.
- Reading the file is not modelled: `std::ifstream`, `getline`, opening errors,
  `cl::opt` parsing. The only `errs()` output kept is the structural reports: an
  unclosed section and wrong syntax. The informational lines are dropped.
- The static `std::map` that `loadFunctionsFromFile` fills on lookup is a pure
  token-to-list table.
- lib/Instrument.h and sandbox/hh2/householder3.c are not part of this model.
- PatternCompiler.CollapseParens: its own contract states only that white space is
  deleted and that a line without parentheses is kept. Which white space goes is stated
  by the lemmas on its two halves. Each Split lemma allows any cut that no match spans,
  so Split with Pair, Keeps and Single fixes each half's result on every line. The
  Repeated lemmas and CollapseParensSignature state common cases outright.
- Wildcards.QuestionMarkMeaning: one model character stands for one byte of the
  source's `std::string`, matched by std::regex over `char`. The '?' of a file line and
  the `.` of RegexSubset cover one byte there, so the model and the source agree only
  on ASCII names. A multi-byte character such as `é` is one character here and two
  bytes there.
- LegacySelect.HashFitsMeaning: for the same reason, each '#' lies over one byte in
  std::search and over one character here, so the two agree only on ASCII names.
- On these points the model follows the code, not the behaviour one might expect:
  - The exclude test of both revisions consults the command-line regexes, so a
    command-line hit rejects a function instead of adding it.
  - A '?' in a file line becomes `(.?)`, which matches zero or one character, not
    exactly one.
  - A '.' in a file line is the regex wildcard, not a literal dot.
  - The current loader's `rc` flag is never cleared, so every unclosed section is
    reported.
  - The legacy loader's flag, once cleared, silences later reports. That loader also
    reports blank top-level lines.
