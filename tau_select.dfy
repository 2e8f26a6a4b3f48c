/** The decision of the current revision (lib/TAUInstrument.cpp, maybeSaveForProfiling and
    regexFits) as predicates over a loaded configuration. The methods of TauPass compute
    the same answers with the original's loops and early returns. */
module TauSelect {
  import opened Host
  import opened TauConfig

  /** Some compiled pattern of the list full-matches the subject. */
  predicate AnyFullMatch(host: Host, patterns: seq<string>, subject: string)
  {
    exists i :: 0 <= i < |patterns| && host.regexMatch(patterns[i], subject)
  }

  /** regexFits(name, list, cli): the command-line regexes first, and only when `cli`
      holds, then a full match against the list's patterns. */
  predicate Fits(host: Host, opts: Options, name: string, patterns: seq<string>, cli: bool)
  {
    (cli && CliHit(host, opts, name)) || AnyFullMatch(host, patterns, name)
  }

  /** The file half of the decision. regexFits is called with its default `cli`, false. */
  predicate FileAllowed(host: Host, opts: Options, cfg: Config, file: string)
  {
    if |cfg.fileIncl.literals| + |cfg.fileIncl.patterns| + |cfg.fileExcl.literals| + |cfg.fileExcl.patterns| == 0 then true
    else
      (|cfg.fileIncl.literals| + |cfg.fileIncl.patterns| == 0
       || file in cfg.fileIncl.literals || Fits(host, opts, file, cfg.fileIncl.patterns, false))
      && !(file in cfg.fileExcl.literals || Fits(host, opts, file, cfg.fileExcl.patterns, false))
  }

  /** maybeSaveForProfiling: the name is normalised first and an empty result is never
      selected; then the file must pass, and the name must be included and not excluded.
      Both function tests call regexFits with cli = true. */
  predicate Selected(host: Host, opts: Options, cfg: Config, rawName: string, file: string)
  {
    var name := host.normalizeName(rawName);
    name != ""
    && FileAllowed(host, opts, cfg, file)
    && (name in cfg.funcIncl.literals || Fits(host, opts, name, cfg.funcIncl.patterns, true))
    && !(name in cfg.funcExcl.literals || Fits(host, opts, name, cfg.funcExcl.patterns, true))
  }

  // ---------------------------------------------------------------------------------

  /** A name that normalises to "" is rejected before any list is looked at. */
  lemma EmptyNameNeverSelected(host: Host, opts: Options, cfg: Config, rawName: string, file: string)
    requires host.normalizeName(rawName) == ""
    ensures !Selected(host, opts, cfg, rawName, file)
  {
  }

  /** Without any file rule every file passes, the empty file name included. */
  lemma NoFileRulesAllowAll(host: Host, opts: Options, cfg: Config, file: string)
    requires cfg.fileIncl.IsEmpty() && cfg.fileExcl.IsEmpty()
    ensures FileAllowed(host, opts, cfg, file)
  {
  }

  /** With some file rule, a file passes exactly when the include list is empty or names
      it (literally or by a full-matching pattern), and the exclude list does not. */
  lemma FileRuleMeaning(host: Host, opts: Options, cfg: Config, file: string)
    requires !(cfg.fileIncl.IsEmpty() && cfg.fileExcl.IsEmpty())
    ensures FileAllowed(host, opts, cfg, file)
            <==> (cfg.fileIncl.IsEmpty() || file in cfg.fileIncl.literals
                  || AnyFullMatch(host, cfg.fileIncl.patterns, file))
                 && file !in cfg.fileExcl.literals
                 && !AnyFullMatch(host, cfg.fileExcl.patterns, file)
  {
  }

  /** The file test never consults the command-line regexes: two hosts that agree on
      full matches, under any options, agree on every file. */
  lemma FileTestIgnoresCli(h1: Host, o1: Options, h2: Host, o2: Options, cfg: Config, file: string)
    requires forall p, s :: h1.regexMatch(p, s) == h2.regexMatch(p, s)
    ensures FileAllowed(h1, o1, cfg, file) == FileAllowed(h2, o2, cfg, file)
  {
    assert AnyFullMatch(h1, cfg.fileIncl.patterns, file) == AnyFullMatch(h2, cfg.fileIncl.patterns, file);
    assert AnyFullMatch(h1, cfg.fileExcl.patterns, file) == AnyFullMatch(h2, cfg.fileExcl.patterns, file);
  }

  /** The command-line regexes count only when `cli` is set and their option is not
      empty; otherwise regexFits is the full-match test of the list alone. */
  lemma CliOnlyWhenAsked(host: Host, opts: Options, name: string, patterns: seq<string>, cli: bool)
    requires !cli || (opts.regex == "" && opts.iregex == "")
    ensures Fits(host, opts, name, patterns, cli) == AnyFullMatch(host, patterns, name)
  {
  }

  /** The whole decision, with the command-line regexes pulled out: because the exclude
      test also passes cli = true, a command-line hit can only reject. */
  lemma SelectedMeaning(host: Host, opts: Options, cfg: Config, rawName: string, file: string)
    ensures var name := host.normalizeName(rawName);
            Selected(host, opts, cfg, rawName, file)
            <==> name != ""
                 && FileAllowed(host, opts, cfg, file)
                 && (name in cfg.funcIncl.literals || AnyFullMatch(host, cfg.funcIncl.patterns, name))
                 && name !in cfg.funcExcl.literals
                 && !AnyFullMatch(host, cfg.funcExcl.patterns, name)
                 && !CliHit(host, opts, name)
  {
  }

  /** A name either command-line regex finds is never selected. */
  lemma CliHitRejects(host: Host, opts: Options, cfg: Config, rawName: string, file: string)
    requires CliHit(host, opts, host.normalizeName(rawName))
    ensures !Selected(host, opts, cfg, rawName, file)
  {
  }

  /** Functions default to deny: with an empty function include list nothing is
      selected, whatever the command-line regexes are. */
  lemma NoIncludeRulesSelectNothing(host: Host, opts: Options, cfg: Config, rawName: string, file: string)
    requires cfg.funcIncl.IsEmpty()
    ensures !Selected(host, opts, cfg, rawName, file)
  {
  }

  /** Exclusion wins over inclusion, for names and for files. */
  lemma ExcludeWins(host: Host, opts: Options, cfg: Config, rawName: string, file: string)
    requires var name := host.normalizeName(rawName);
             name in cfg.funcExcl.literals || AnyFullMatch(host, cfg.funcExcl.patterns, name)
             || file in cfg.fileExcl.literals || AnyFullMatch(host, cfg.fileExcl.patterns, file)
    ensures !Selected(host, opts, cfg, rawName, file)
  {
  }
}
