/** The pass object of the current revision (lib/TAUInstrument.h, struct TAUInstrument,
    and its methods in lib/TAUInstrument.cpp): eight collections filled once by the
    constructor through the loader loops, then consulted read-only for every function. */
module TauPass {
  import opened Common
  import opened Host
  import opened PatternCompiler
  import opened TauConfig
  import opened TauSelect

  class TauInstrument {
    var funcsOfInterest: set<string>
    var funcsOfInterestRegex: seq<string>
    var funcsExcl: set<string>
    var funcsExclRegex: seq<string>
    var filesIncl: set<string>
    var filesInclRegex: seq<string>
    var filesExcl: set<string>
    var filesExclRegex: seq<string>
    /** What the loader reported on the diagnostic stream about the file's structure. */
    var diagnostics: seq<Diagnostic>
    /** The command-line options, fixed for the life of the pass. */
    const opts: Options

    /** The eight collections, viewed as the four lists of TauConfig. */
    function Lists(): Config
      reads this
    {
      Config(PatternSet(funcsOfInterest, funcsOfInterestRegex),
             PatternSet(funcsExcl, funcsExclRegex),
             PatternSet(filesIncl, filesInclRegex),
             PatternSet(filesExcl, filesExclRegex))
    }

    function State(): LoadState
      reads this
    {
      LoadState(Lists(), diagnostics)
    }

    /** The file is loaded only when an input file was named; otherwise all eight
        collections stay empty. An input file that cannot be opened reads as no lines. */
    constructor(opts: Options, inputLines: seq<string>)
      ensures this.opts == opts
      ensures State() == if opts.inputFile != "" then Load(inputLines) else EmptyState
    {
      this.opts := opts;
      funcsOfInterest, funcsOfInterestRegex := {}, [];
      funcsExcl, funcsExclRegex := {}, [];
      filesIncl, filesInclRegex := {}, [];
      filesExcl, filesExclRegex := {}, [];
      diagnostics := [];
      new;
      if opts.inputFile != "" {
        LoadFunctionsFromFile(inputLines);
      }
    }

    /** Inserting a literal into the list's StringSet, or pushing a pattern onto its
        vector. */
    method Store(k: ListKind, e: Entry, ghost base: Config, ghost ps: PatternSet)
      requires Lists() == base.With(k, ps)
      modifies this
      ensures Lists() == base.With(k, ps.Add(e))
      ensures diagnostics == old(diagnostics)
    {
      assert base.With(k, ps).With(k, ps.Add(e)) == base.With(k, ps.Add(e));
      match (k, e)
      case (FuncInclude, Literal(t)) => funcsOfInterest := funcsOfInterest + {t};
      case (FuncInclude, Pattern(p)) => funcsOfInterestRegex := funcsOfInterestRegex + [p];
      case (FuncExclude, Literal(t)) => funcsExcl := funcsExcl + {t};
      case (FuncExclude, Pattern(p)) => funcsExclRegex := funcsExclRegex + [p];
      case (FileInclude, Literal(t)) => filesIncl := filesIncl + {t};
      case (FileInclude, Pattern(p)) => filesInclRegex := filesInclRegex + [p];
      case (FileExclude, Literal(t)) => filesExcl := filesExcl + {t};
      case (FileExclude, Pattern(p)) => filesExclRegex := filesExclRegex + [p];
    }

    /** One line of readUntilToken's loop: a space-only line is skipped, the list's END
        token ends the section, and any other line is classified and stored. */
    method ReadLine(k: ListKind, line: string, ghost base: Config, ghost ps: PatternSet)
      returns (ended: bool, ghost after: PatternSet)
      requires Lists() == base.With(k, ps)
      modifies this
      ensures ended <==> !IsBlank(line) && line == EndToken(k)
      ensures after == AfterLine(ps, line, EndToken(k))
      ensures Lists() == base.With(k, after)
      ensures diagnostics == old(diagnostics)
    {
      ended := false;
      after := ps;
      if !IsBlank(line) {
        if line == EndToken(k) {
          ended := true;
        } else {
          var e := Classify(IsFileToken(EndToken(k)), line);
          Store(k, e, base, ps);
          after := ps.Add(e);
        }
      }
    }

    /** readUntilToken for list k, reading from line `start`; `next` is where the stream
        stands afterwards. */
    method ReadUntilToken(lines: seq<string>, start: nat, k: ListKind) returns (next: nat)
      requires start <= |lines|
      modifies this
      ensures var r := ReadSection(old(Lists()).Get(k), lines, start, EndToken(k));
              next == r.next
              && Lists() == old(Lists()).With(k, r.entries)
              && diagnostics == old(diagnostics) + (if r.closed then [] else [UnclosedSection(EndToken(k))])
    {
      var token := EndToken(k);
      var rc := true;
      ghost var before := old(Lists());
      ghost var target := ReadSection(before.Get(k), lines, start, token);
      ghost var ps := before.Get(k);
      var i := start;
      while i < |lines|
        invariant start <= i <= |lines|
        invariant ReadSection(ps, lines, i, token) == target
        invariant Lists() == before.With(k, ps)
        invariant diagnostics == old(diagnostics)
        decreases |lines| - i
      {
        var ended: bool;
        ReadSectionStep(ps, lines, i, token);
        ended, ps := ReadLine(k, lines[i], before, ps);
        i := i + 1;
        if ended {
          return i;
        }
      }
      if rc {
        diagnostics := diagnostics + [UnclosedSection(token)];
      }
      next := i;
    }

    /** loadFunctionsFromFile: the top-level loop that dispatches on BEGIN tokens. */
    method LoadFunctionsFromFile(lines: seq<string>)
      modifies this
      ensures State() == LoadFrom(old(State()), lines, 0)
    {
      var i := 0;
      while i < |lines|
        invariant 0 <= i <= |lines|
        invariant LoadFrom(State(), lines, i) == LoadFrom(old(State()), lines, 0)
        decreases |lines| - i
      {
        var line := lines[i];
        i := i + 1;
        if !IsBlank(line) {
          match SectionOf(line)
          case Some(k) =>
            i := ReadUntilToken(lines, i, k);
          case None =>
            diagnostics := diagnostics + [WrongSyntax];
        }
      }
    }

    /** regexFits: the command-line regexes (substring search, only when `cli`), then the
        first list pattern that matches the whole name. */
    method RegexFits(name: string, patterns: seq<string>, host: Host, cli: bool) returns (r: bool)
      ensures r == Fits(host, opts, name, patterns, cli)
    {
      var match_, imatch := false, false;
      if cli {
        if opts.regex != "" {
          match_ := host.regexSearch(opts.regex, false, name);
        }
        if opts.iregex != "" {
          imatch := host.regexSearch(opts.iregex, true, name);
        }
      }
      if match_ || imatch {
        return true;
      }
      var i := 0;
      while i < |patterns|
        invariant 0 <= i <= |patterns|
        invariant forall j :: 0 <= j < i ==> !host.regexMatch(patterns[j], name)
      {
        if host.regexMatch(patterns[i], name) {
          return true;
        }
        i := i + 1;
      }
      return false;
    }

    /** maybeSaveForProfiling for a function whose (possibly mangled) name is `rawName`
        and whose source file is `filename`. */
    method MaybeSaveForProfiling(rawName: string, filename: string, host: Host) returns (instrument: bool)
      ensures instrument == Selected(host, opts, Lists(), rawName, filename)
    {
      var prettyName := host.normalizeName(rawName);
      var instrumentHere := false;
      if prettyName == "" {
        return false;
      }
      if |filesIncl| + |filesInclRegex| + |filesExcl| + |filesExclRegex| == 0 {
        instrumentHere := true;
      } else {
        var inclFits := RegexFits(filename, filesInclRegex, host, false);
        var exclFits := RegexFits(filename, filesExclRegex, host, false);
        if (|filesIncl| + |filesInclRegex| == 0 || filename in filesIncl || inclFits)
           && !(filename in filesExcl || exclFits) {
          instrumentHere := true;
        }
      }
      var funcIn := RegexFits(prettyName, funcsOfInterestRegex, host, true);
      var funcOut := RegexFits(prettyName, funcsExclRegex, host, true);
      if instrumentHere && (prettyName in funcsOfInterest || funcIn)
         && !(prettyName in funcsExcl || funcOut) {
        return true;
      }
      return false;
    }

    /** runOnFunction, reduced to its result: false in dry-run mode, otherwise whether
        instrumentation was added, which addInstrumentation always reports as done. */
    method RunOnFunction(rawName: string, filename: string, host: Host) returns (modified: bool)
      ensures modified == (!opts.dryRun && Selected(host, opts, Lists(), rawName, filename))
    {
      modified := false;
      var instru := MaybeSaveForProfiling(rawName, filename, host);
      if opts.dryRun {
        return false;
      }
      if instru {
        modified := true;
      }
    }
  }
}
