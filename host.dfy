/** What the selection engine receives from its surroundings: the command-line options,
    and the services of the C++ runtime it calls but does not implement (std::regex and
    the C++ ABI demangler). */
module Host {

  /** The services the pass calls into, taken as given functions.
      - regexMatch(source, subject): std::regex_match of subject against the ECMAScript
        regex built from source (a full match);
      - regexSearch(source, icase, subject): std::regex_search (a match anywhere), with
        std::regex_constants::icase when icase holds;
      - normalizeName(raw): the demangled form of a symbol name, "" when demangling fails
        (without TAU_PROF_CXX it returns raw unchanged). */
  datatype Host = Host(
    regexMatch: (string, string) -> bool,
    regexSearch: (string, bool, string) -> bool,
    normalizeName: string -> string)

  /** The plugin's command-line options. */
  datatype Options = Options(
    inputFile: string,   // --tau-input-file
    startFunc: string,   // --tau-start-func
    stopFunc: string,    // --tau-stop-func
    regex: string,       // --tau-regex, source of the case-sensitive `rex`
    iregex: string,      // --tau-iregex, source of the case-insensitive `irex`
    dryRun: bool)        // --tau-dry-run

  /** The option values when no flag is given. */
  const DefaultOptions: Options := Options("", "Tau_start", "Tau_stop", "", "", false)

  /** The command-line regexes' verdict on a name: each is consulted only when its
      option string is not empty, and both use search, not full match. */
  predicate CliHit(host: Host, opts: Options, name: string)
  {
    (opts.regex != "" && host.regexSearch(opts.regex, false, name))
    || (opts.iregex != "" && host.regexSearch(opts.iregex, true, name))
  }

  /** With both regex options empty (their default) the command-line regexes never
      report a hit, whatever the regex engine does. */
  lemma EmptyOptionsNeverHit(host: Host, opts: Options, name: string)
    requires opts.regex == "" && opts.iregex == ""
    ensures !CliHit(host, opts, name)
  {
  }
}
