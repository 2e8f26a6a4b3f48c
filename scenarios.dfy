/** Worked examples over both revisions, on concrete configuration files and names.
    The regex engine is the subset semantics of RegexSubset, the demangler the identity
    (a build without TAU_PROF_CXX), and the command-line search finds nothing. */
module Scenarios {
  import opened Common
  import opened Host
  import opened PatternCompiler
  import opened RegexSubset
  import opened Wildcards
  import opened TauConfig
  import opened TauSelect
  import opened LegacyConfig
  import opened LegacySelect

  /** foo#bar is the function line a#b with plain a = foo and b = bar. */
  lemma FooBarShape()
    ensures "foo#bar" == "foo" + "#" + "bar" && Verbatim("foo") && Verbatim("bar")
  {
  }

  /** A function pattern: foo#bar takes any middle ... */
  lemma FooBarAnyMiddle()
    ensures SubsetFullMatch(CompileFunctionPattern("foo#bar"), "fooXYZbar")
  {
    assert "fooXYZbar" == "foo" + "XYZ" + "bar" && NoLineTerminator("XYZ");
    FooBarShape();
    SingleWildcardMeaning("foo", "bar", "fooXYZbar");
  }

  /** ... the empty one included ... */
  lemma FooBarEmptyMiddle()
    ensures SubsetFullMatch(CompileFunctionPattern("foo#bar"), "foobar")
  {
    FooBarShape();
    SingleWildcardMeaning("foo", "bar", "foobar");
    assert "foobar" == "foo" + "" + "bar" && NoLineTerminator("");
  }

  /** ... but needs both ends. */
  lemma FooBarNeedsBothEnds()
    ensures !SubsetFullMatch(CompileFunctionPattern("foo#bar"), "fooba")
  {
    FooBarShape();
    SingleWildcardMeaning("foo", "bar", "fooba");
    forall x ensures "fooba" != "foo" + x + "bar" {
      assert |"foo" + x + "bar"| >= 6;
    }
  }

  /** *.cpp is the file line "*." + w with plain w = cpp. */
  lemma StarDotCppShape()
    ensures "*.cpp" == "*." + "cpp" && Verbatim("cpp")
  {
  }

  /** A file pattern: *.cpp matches a name ending in ".cpp" ... */
  lemma StarDotCppMatches()
    ensures SubsetFullMatch(CompileFilePattern("*.cpp"), "a/b.cpp")
  {
    assert "a/b.cpp" == "a/b." + "cpp" && |"a/b."| >= 1 && NoLineTerminator("a/b.");
    StarDotCppShape();
    StarDotSuffixMeaning("cpp", "a/b.cpp");
  }

  /** ... but not one with a further extension ... */
  lemma StarDotCppRejectsBak()
    ensures !SubsetFullMatch(CompileFilePattern("*.cpp"), "a/b.cpp.bak")
  {
    assert "a/b.cpp.bak"[|"a/b.cpp.bak"| - 3..] == "bak" != "cpp";
    StarDotCppShape();
    StarDotSuffixRejects("cpp", "a/b.cpp.bak");
  }

  /** ... and, the dot being a regex wildcard, also a name with no dot there. */
  lemma StarDotCppDotIsWildcard()
    ensures SubsetFullMatch(CompileFilePattern("*.cpp"), "a/bxcpp")
  {
    assert "a/bxcpp" == "a/bx" + "cpp" && |"a/bx"| >= 1 && NoLineTerminator("a/bx");
    StarDotCppShape();
    StarDotSuffixMeaning("cpp", "a/bxcpp");
  }

  /** io?_h is the file line a?b with plain a = io and b = _h. */
  lemma IoHShape()
    ensures "io?_h" == "io" + "?" + "_h" && Verbatim("io") && Verbatim("_h")
  {
  }

  /** A file pattern: in io?_h the '?' stands for no character ... */
  lemma QuestionMarkNone()
    ensures SubsetFullMatch(CompileFilePattern("io?_h"), "io_h")
  {
    assert "io_h" == "io" + "_h";
    IoHShape();
    QuestionMarkMeaning("io", "_h", "io_h");
  }

  /** ... or for one character ... */
  lemma QuestionMarkOne()
    ensures SubsetFullMatch(CompileFilePattern("io?_h"), "ios_h")
  {
    assert "ios_h" == "io" + ['s'] + "_h" && !IsLineTerminator('s');
    IoHShape();
    QuestionMarkMeaning("io", "_h", "ios_h");
  }

  /** ... but not for two. */
  lemma QuestionMarkNotTwo()
    ensures !SubsetFullMatch(CompileFilePattern("io?_h"), "iost_h")
  {
    assert |"iost_h"| == 6;
    forall c ensures "iost_h" != "io" + [c] + "_h" && "iost_h" != "io" + "_h" {
      assert |"io" + [c] + "_h"| == 5 && |"io" + "_h"| == 4;
    }
    IoHShape();
    QuestionMarkMeaning("io", "_h", "iost_h");
  }

  /** A legacy wildcard: '#' stands for exactly one character, so it cannot stand for
      none ... */
  lemma LegacyHashNotNone()
    ensures !HashFits("foobar", "foo#bar")
  {
    assert |"foobar"| < |"foo#bar"|;
    HashFitsMeaning("foobar", "foo#bar");
  }

  /** ... it may stand for one, anywhere in the name ... */
  lemma LegacyHashOne()
    ensures HashFits("xfooZbarx", "foo#bar")
  {
    assert MatchAt("xfooZbarx", "foo#bar", 1);
    HashFitsMeaning("xfooZbarx", "foo#bar");
  }

  /** ... but not for several. */
  lemma LegacyHashNotSeveral()
    ensures !HashFits("fooXYZbar", "foo#bar")
  {
    forall i: nat | i + 7 <= 9 ensures !MatchAt("fooXYZbar", "foo#bar", i) {
      if i == 0 { assert !CharFits("fooXYZbar"[4], "foo#bar"[4]); }
      else if i == 1 { assert !CharFits("fooXYZbar"[1], "foo#bar"[0]); }
      else { assert !CharFits("fooXYZbar"[2], "foo#bar"[0]); }
    }
    HashFitsMeaning("fooXYZbar", "foo#bar");
  }

  // ---------------------------------------------------------------------------------
  // Loading and deciding.

  const SubsetHost: Host := Host((src, subject) => SubsetFullMatch(src, subject),
                                 (src, icase, subject) => false,
                                 raw => raw)

  const ComputeFile: seq<string> := ["BEGIN_INCLUDE_LIST", "compute_#", "END_INCLUDE_LIST",
                                     "BEGIN_EXCLUDE_LIST", "compute_debug", "END_EXCLUDE_LIST"]

  /** `(( x` loses only the blank after the second '(' ... */
  lemma DoubleOpenParen()
    ensures CollapseParens("(( x") == "((x"
  {
    assert "(( x" == ['(', '(', ' '] + "x";
    CollapseOpenParenRepeated(' ', "x");
  }

  /** ... and `x  )` only the second of its two blanks before ')'. */
  lemma DoubleBlankBeforeClose()
    ensures CollapseParens("x  )") == "x )"
  {
    assert "x  )" == "x" + ([' ', ' ', ')'] + []);
    CollapseCloseParenSplit("x", [' ', ' ', ')'] + []);
    CollapseCloseParenRepeated(' ', ' ', []);
  }

  /** A file with one include section holding the wildcard line p and one exclude
      section holding the literal q loads into one include pattern and one exclude
      literal, with nothing reported. */
  lemma TwoSectionFile(lines: seq<string>, p: string, q: string)
    requires lines == ["BEGIN_INCLUDE_LIST", p, "END_INCLUDE_LIST", "BEGIN_EXCLUDE_LIST", q, "END_EXCLUDE_LIST"]
    requires '(' !in p && ')' !in p && '#' in p
    requires '(' !in q && ')' !in q && '#' !in q && !IsBlank(q) && q != "END_EXCLUDE_LIST"
    ensures Load(lines)
            == LoadState(Config(PatternSet({}, [CompileFunctionPattern(p)]), PatternSet({q}, []),
                                NoEntries, NoEntries), [])
  {
    assert p != EndToken(FuncInclude) && !IsBlank(p) by {
      var i :| 0 <= i < |p| && p[i] == '#';
      assert '#' !in EndToken(FuncInclude);
    }
    assert Opens(lines[0], FuncInclude) && Opens(lines[3], FuncExclude) by {
      BeginTokenOpens(FuncInclude);
      BeginTokenOpens(FuncExclude);
    }
    TwoSectionLoad(lines, p, q);
  }

  /** The same file, described by what each of its six lines is. */
  lemma TwoSectionLoad(lines: seq<string>, p: string, q: string)
    requires |lines| == 6 && Opens(lines[0], FuncInclude) && lines[1] == p && lines[2] == EndToken(FuncInclude)
    requires Opens(lines[3], FuncExclude) && lines[4] == q && lines[5] == EndToken(FuncExclude)
    requires '(' !in p && ')' !in p && '#' in p && !IsBlank(p) && p != EndToken(FuncInclude)
    requires '(' !in q && ')' !in q && '#' !in q && !IsBlank(q) && q != EndToken(FuncExclude)
    ensures Load(lines)
            == LoadState(Config(PatternSet({}, [CompileFunctionPattern(p)]), PatternSet({q}, []),
                                NoEntries, NoEntries), [])
  {
    var e1 := Pattern(CompileFunctionPattern(p));
    var e2 := Literal(q);
    var st1 := LoadState(EmptyConfig.With(FuncInclude, NoEntries.Add(e1)), []);
    var st2 := LoadState(st1.config.With(FuncExclude, NoEntries.Add(e2)), []);
    calc {
      Load(lines);
    == { assert e1 == Classify(IsFileToken(EndToken(FuncInclude)), lines[1]) by {
           EndTokenKinds(FuncInclude);
           FunctionEntryKind(p);
         }
         LoadOneLineSection(EmptyState, lines, 0, FuncInclude, e1); }
      LoadFrom(st1, lines, 3);
    == { assert e2 == Classify(IsFileToken(EndToken(FuncExclude)), lines[4]) by {
           EndTokenKinds(FuncExclude);
           FunctionEntryKind(q);
         }
         LoadOneLineSection(st1, lines, 3, FuncExclude, e2); }
      LoadFrom(st2, lines, 6);
    == { LoadFromEnd(st2, lines); }
      st2;
    == { TwoSectionConfig(e1, e2); }
      LoadState(Config(PatternSet({}, [CompileFunctionPattern(p)]), PatternSet({q}, []),
                       NoEntries, NoEntries), []);
    }
  }

  /** The lists after the two sections: one entry in each of the two function lists. */
  lemma TwoSectionConfig(e1: Entry, e2: Entry)
    requires e1.Pattern? && e2.Literal?
    ensures EmptyConfig.With(FuncInclude, NoEntries.Add(e1)).With(FuncExclude, NoEntries.Add(e2))
            == Config(PatternSet({}, [e1.source]), PatternSet({e2.text}, []), NoEntries, NoEntries)
  {
  }

  /** compute_# is the function line a#b with plain a = compute_ and empty b. */
  lemma ComputeShape()
    ensures "compute_#" == "compute_" + "#" + "" && Verbatim("compute_") && Verbatim("")
  {
  }

  /** compute_# full-matches compute_fast ... */
  lemma ComputeMatchesFast()
    ensures SubsetFullMatch(CompileFunctionPattern("compute_#"), "compute_fast")
  {
    assert "compute_fast" == "compute_" + "fast" + "" && NoLineTerminator("fast");
    ComputeShape();
    SingleWildcardMeaning("compute_", "", "compute_fast");
  }

  /** ... but not other. */
  lemma ComputeRejectsOther()
    ensures !SubsetFullMatch(CompileFunctionPattern("compute_#"), "other")
  {
    forall x ensures "other" != "compute_" + x + "" {
      assert |"compute_" + x + ""| >= 8;
    }
    ComputeShape();
    SingleWildcardMeaning("compute_", "", "other");
  }

  /** With one include pattern, one exclude literal, no file rules, default options and a
      demangler that changes nothing, a name is selected exactly when it is not empty, the
      pattern full-matches it and it is not the excluded name. */
  lemma OneIncludeOneExclude(host: Host, cfg: Config, pattern: string, excluded: string, name: string, file: string)
    requires host.normalizeName(name) == name
    requires cfg == Config(PatternSet({}, [pattern]), PatternSet({excluded}, []), NoEntries, NoEntries)
    ensures Selected(host, DefaultOptions, cfg, name, file)
            <==> name != "" && host.regexMatch(pattern, name) && name != excluded
  {
    assert AnyFullMatch(host, cfg.funcIncl.patterns, name) <==> host.regexMatch(pattern, name) by {
      assert cfg.funcIncl.patterns == [pattern] && cfg.funcIncl.patterns[0] == pattern;
    }
    assert !AnyFullMatch(host, cfg.funcExcl.patterns, name);
  }

  /** The selection for the configuration that includes `compute_#` and excludes
      `compute_debug`, on any configuration holding what that file loads. */
  lemma ComputeSelection(cfg: Config, pattern: string)
    requires pattern == CompileFunctionPattern("compute_#")
    requires cfg == Config(PatternSet({}, [pattern]), PatternSet({"compute_debug"}, []), NoEntries, NoEntries)
    ensures Selected(SubsetHost, DefaultOptions, cfg, "compute_fast", "a.c")
    ensures !Selected(SubsetHost, DefaultOptions, cfg, "compute_debug", "a.c")
    ensures !Selected(SubsetHost, DefaultOptions, cfg, "other", "a.c")
  {
    assert Selected(SubsetHost, DefaultOptions, cfg, "compute_fast", "a.c") by {
      ComputeMatchesFast();
      OneIncludeOneExclude(SubsetHost, cfg, pattern, "compute_debug", "compute_fast", "a.c");
      assert |"compute_fast"| != |"compute_debug"|;
    }
    assert !Selected(SubsetHost, DefaultOptions, cfg, "compute_debug", "a.c") by {
      OneIncludeOneExclude(SubsetHost, cfg, pattern, "compute_debug", "compute_debug", "a.c");
    }
    assert !Selected(SubsetHost, DefaultOptions, cfg, "other", "a.c") by {
      ComputeRejectsOther();
      OneIncludeOneExclude(SubsetHost, cfg, pattern, "compute_debug", "other", "a.c");
    }
  }

  /** With that file, compute_fast is selected, compute_debug is excluded, and other is
      not included. */
  lemma ComputeDecisions()
    ensures var cfg := Load(ComputeFile).config;
            Selected(SubsetHost, DefaultOptions, cfg, "compute_fast", "a.c")
            && !Selected(SubsetHost, DefaultOptions, cfg, "compute_debug", "a.c")
            && !Selected(SubsetHost, DefaultOptions, cfg, "other", "a.c")
  {
    assert "compute_debug"[0] == 'c' && "END_EXCLUDE_LIST"[0] == 'E';
    TwoSectionFile(ComputeFile, "compute_#", "compute_debug");
    ComputeSelection(Load(ComputeFile).config, CompileFunctionPattern("compute_#"));
  }

  /** A file of one line that opens no section stores nothing in either revision and is
      reported once. */
  lemma GarbageOnly(line: string)
    requires SectionOf(line).None? && LegacySectionOf(line).None? && !IsBlank(line)
    ensures Load([line]) == LoadState(EmptyConfig, [WrongSyntax])
    ensures LegacyLoad([line]) == LegacyState(NoLegacyLists, [WrongSyntax], true)
  {
    StrayLinesStoreNothing(EmptyState, [line], 0);
    NonBlankCons([line], 0);
    assert [line][1..] == [];
    LegacyStrayLines(LegacyInitial, [line], 0);
  }

  /** The file holding the single line `garbage line`: nothing stored, one WrongSyntax
      report, in both revisions. */
  lemma GarbageLineExample()
    ensures Load(["garbage line"]) == LoadState(EmptyConfig, [WrongSyntax])
    ensures LegacyLoad(["garbage line"]) == LegacyState(NoLegacyLists, [WrongSyntax], true)
  {
    assert "garbage line"[0] == 'g';
    GarbageOnly("garbage line");
  }

  /** An empty top-level line is skipped by the current loader but reported by the
      legacy one. */
  lemma EmptyLineAtTopLevel()
    ensures Load([""]) == EmptyState
    ensures LegacyLoad([""]).diagnostics == [WrongSyntax]
  {
    StrayLinesStoreNothing(EmptyState, [""], 0);
    NonBlankCons([""], 0);
    assert [""][1..] == [];
    LegacyStrayLines(LegacyInitial, [""], 0);
  }

  /** The legacy flag: after a closed include section, an exclude section cut off by the
      end of the file is kept but not reported, where the current loader reports it. */
  lemma UnclosedAfterClosed(lines: seq<string>, p: string, q: string)
    requires lines == ["BEGIN_INCLUDE_LIST", p, "END_INCLUDE_LIST", "BEGIN_EXCLUDE_LIST", q]
    requires !IsBlank(p) && '(' !in p && ')' !in p && '#' !in p && p != "END_INCLUDE_LIST"
    requires !IsBlank(q) && '(' !in q && ')' !in q && '#' !in q && q != "END_EXCLUDE_LIST"
    ensures Load(lines).diagnostics == [UnclosedSection("END_EXCLUDE_LIST")]
    ensures q in Load(lines).config.funcExcl.literals
    ensures LegacyLoad(lines).diagnostics == []
    ensures q in LegacyLoad(lines).lists.funcsExcl
  {
    BeginTokenOpens(FuncInclude);
    BeginTokenOpens(FuncExclude);
    CurrentUnclosedAfterClosed(lines, p, q);
    LegacyUnclosedAfterClosed(lines, p, q);
  }

  lemma CurrentUnclosedAfterClosed(lines: seq<string>, p: string, q: string)
    requires |lines| == 5 && Opens(lines[0], FuncInclude) && lines[1] == p && lines[2] == EndToken(FuncInclude)
    requires Opens(lines[3], FuncExclude) && lines[4] == q
    requires !IsBlank(p) && '(' !in p && ')' !in p && '#' !in p && p != EndToken(FuncInclude)
    requires !IsBlank(q) && '(' !in q && ')' !in q && '#' !in q && q != EndToken(FuncExclude)
    ensures Load(lines).diagnostics == [UnclosedSection(EndToken(FuncExclude))]
    ensures q in Load(lines).config.funcExcl.literals
  {
    var e1 := Literal(p);
    var e2 := Literal(q);
    var st1 := LoadState(EmptyConfig.With(FuncInclude, NoEntries.Add(e1)), []);
    var st2 := LoadState(st1.config.With(FuncExclude, NoEntries.Add(e2)), [UnclosedSection(EndToken(FuncExclude))]);
    calc {
      Load(lines);
    == { assert e1 == Classify(IsFileToken(EndToken(FuncInclude)), lines[1]) by {
           EndTokenKinds(FuncInclude);
           FunctionEntryKind(p);
         }
         LoadOneLineSection(EmptyState, lines, 0, FuncInclude, e1); }
      LoadFrom(st1, lines, 3);
    == { assert e2 == Classify(IsFileToken(EndToken(FuncExclude)), lines[4]) by {
           EndTokenKinds(FuncExclude);
           FunctionEntryKind(q);
         }
         LoadOneLineUnclosed(st1, lines, 3, FuncExclude, e2); }
      st2;
    }
  }

  lemma LegacyUnclosedAfterClosed(lines: seq<string>, p: string, q: string)
    requires |lines| == 5 && lines[0] == "BEGIN_INCLUDE_LIST" && lines[1] == p && lines[2] == LegacyEndToken(Include)
    requires lines[3] == "BEGIN_EXCLUDE_LIST" && lines[4] == q
    requires !IsBlank(p) && '#' !in p && p != LegacyEndToken(Include)
    requires !IsBlank(q) && '#' !in q && q != LegacyEndToken(Exclude)
    ensures LegacyLoad(lines).diagnostics == []
    ensures q in LegacyLoad(lines).lists.funcsExcl
  {
    var l1 := LegacyAddAll(NoLegacyLists, Include, [p]);
    LegacyClosedIncludeStep(lines, p, l1);
    var l2 := LegacyAddAll(l1, Exclude, [q]);
    LegacyUnclosedExcludeStep(lines, q, l1, l2);
  }

  lemma LegacyClosedIncludeStep(lines: seq<string>, p: string, l1: LegacyLists)
    requires |lines| == 5 && lines[0] == "BEGIN_INCLUDE_LIST" && lines[1] == p && lines[2] == LegacyEndToken(Include)
    requires !IsBlank(p) && p != LegacyEndToken(Include)
    requires l1 == LegacyAddAll(NoLegacyLists, Include, [p])
    ensures LegacyLoad(lines) == LegacyLoadFrom(LegacyState(l1, [], false), lines, 3)
  {
    assert SectionEndsAt(lines, 1, LegacyEndToken(Include), 2);
    LegacyReadSectionMeaning(NoLegacyLists, Include, lines, 1, 2);
    assert lines[1..2] == [p];
    assert NonBlank([p]) == [p];
    var r := LegacyReadSection(LegacyInitial.lists, Include, lines, 1);
    assert r == LegacySectionResult(l1, 3, true);
    assert LegacySectionOf(lines[0]) == Some(Include);
    var empty: seq<Diagnostic> := [];
    assert LegacyInitial.diagnostics + empty == [];
  }

  lemma LegacyUnclosedExcludeStep(lines: seq<string>, q: string, l1: LegacyLists, l2: LegacyLists)
    requires |lines| == 5 && lines[3] == "BEGIN_EXCLUDE_LIST" && lines[4] == q
    requires !IsBlank(q) && '#' !in q && q != LegacyEndToken(Exclude)
    requires l2 == LegacyAddAll(l1, Exclude, [q])
    ensures LegacyLoadFrom(LegacyState(l1, [], false), lines, 3) == LegacyState(l2, [], false)
    ensures q in l2.funcsExcl
  {
    assert SectionEndsAt(lines, 4, LegacyEndToken(Exclude), 5);
    LegacyReadSectionMeaning(l1, Exclude, lines, 4, 5);
    assert lines[4..5] == [q];
    assert NonBlank([q]) == [q];
  }

  /** The five-line file `BEGIN_INCLUDE_LIST`, `foo`, `END_INCLUDE_LIST`,
      `BEGIN_EXCLUDE_LIST`, `bar`: the current loader reports the unclosed exclude
      section, the legacy one does not. */
  lemma RcContrastExample()
    ensures var lines := ["BEGIN_INCLUDE_LIST", "foo", "END_INCLUDE_LIST", "BEGIN_EXCLUDE_LIST", "bar"];
            Load(lines).diagnostics == [UnclosedSection("END_EXCLUDE_LIST")]
            && LegacyLoad(lines).diagnostics == []
  {
    assert "foo"[0] == 'f' && "bar"[0] == 'b';
    UnclosedAfterClosed(["BEGIN_INCLUDE_LIST", "foo", "END_INCLUDE_LIST", "BEGIN_EXCLUDE_LIST", "bar"], "foo", "bar");
  }

  /** --tau-regex=^profile_ does not add profile_init to the selection: a command-line
      hit rejects the name, even when the file lists it for inclusion, in both
      revisions. */
  lemma CliRegexRejectsListedName(host: Host, opts: Options, cfg: Config, l: LegacyLists, caller: string)
    requires opts.regex == "^profile_" && host.regexSearch("^profile_", false, "profile_init")
    requires host.normalizeName("profile_init") == "profile_init"
    requires "profile_init" in cfg.funcIncl.literals && "profile_init" in l.funcsOfInterest
    ensures !Selected(host, opts, cfg, "profile_init", "main.c")
    ensures !LegacySelected(host, opts, l, caller, "profile_init")
  {
    CliHitRejects(host, opts, cfg, "profile_init", "main.c");
    LegacyCliHitRejects(host, opts, l, caller, "profile_init");
  }
}
