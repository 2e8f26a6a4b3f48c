/** The decision of the legacy revision (lib/Instrument.cpp, regexFits and
    maybeSaveForProfiling): wildcard lines are not regexes but needles for std::search,
    in which a '#' stands for exactly one character. */
module LegacySelect {
  import opened Common
  import opened Host
  import opened LegacyConfig

  /** The comparison predicate given to std::search. */
  predicate CharFits(txt: char, pattern: char)
  {
    pattern == '#' || pattern == txt
  }

  /** The needle `p` lies over `name` at offset `i`. */
  predicate MatchAt(name: string, p: string, i: nat)
    requires i + |p| <= |name|
  {
    forall k :: 0 <= k < |p| ==> CharFits(name[i + k], p[k])
  }

  /** std::search from offset `i`: the first offset at which the needle fits, or
      |name| (the end iterator) when there is none. */
  function SearchFrom(name: string, p: string, i: nat): (r: nat)
    requires i <= |name|
    ensures i <= r <= |name|
    ensures r < |name| ==> r + |p| <= |name| && MatchAt(name, p, r)
    ensures forall j :: i <= j < r && j + |p| <= |name| ==> !MatchAt(name, p, j)
    ensures r == |name| && |p| > 0 ==> forall j :: i <= j && j + |p| <= |name| ==> !MatchAt(name, p, j)
    decreases |name| - i
  {
    if i + |p| > |name| then |name|
    else if MatchAt(name, p, i) then i
    else SearchFrom(name, p, i + 1)
  }

  /** `name.end() != std::search(...)` for one wildcard line. */
  predicate HashFits(name: string, p: string)
  {
    SearchFrom(name, p, 0) != |name|
  }

  /** A non-empty wildcard line fits a name exactly when it lies over some stretch of
      the name, each '#' over one character and every other character over itself. */
  lemma HashFitsMeaning(name: string, p: string)
    requires p != []
    ensures HashFits(name, p) <==> exists i: nat :: i + |p| <= |name| && MatchAt(name, p, i)
  {
    var r := SearchFrom(name, p, 0);
    if r < |name| {
      assert r + |p| <= |name| && MatchAt(name, p, r);
    }
  }

  /** regexFits: the command-line regexes unconditionally, then the wildcard set. */
  predicate LegacyFits(host: Host, opts: Options, name: string, wildcards: set<string>)
  {
    CliHit(host, opts, name) || exists p :: p in wildcards && HashFits(name, p)
  }

  /** The callee's demangled name, or its raw name when demangling gives "". */
  function CalleeName(host: Host, rawCallee: string): (name: string)
    ensures host.normalizeName(rawCallee) != "" ==> name == host.normalizeName(rawCallee)
    ensures host.normalizeName(rawCallee) == "" ==> name == rawCallee
    ensures name == "" ==> rawCallee == ""
  {
    var pretty := host.normalizeName(rawCallee);
    if pretty == "" then rawCallee else pretty
  }

  /** The decision for a call from the function named `caller` to the function named
      `rawCallee`: included by literal, by wildcard or by the `caller/callee` literal,
      and not excluded by literal or wildcard. Both tests consult the command-line
      regexes. `caller` is the calling function's raw (mangled) symbol name, as
      `getName()` returns it, while the callee is demangled: the key for a call from
      `_Z3barv` to `foo` is `_Z3barv/foo`, not `bar()/foo`. */
  predicate LegacySelected(host: Host, opts: Options, l: LegacyLists, caller: string, rawCallee: string)
  {
    var callee := CalleeName(host, rawCallee);
    (callee in l.funcsOfInterest || LegacyFits(host, opts, callee, l.funcsOfInterestRegex)
     || caller + "/" + callee in l.funcsOfInterest)
    && !(callee in l.funcsExcl || LegacyFits(host, opts, callee, l.funcsExclRegex))
  }

  // ---------------------------------------------------------------------------------

  /** The decision with the command-line regexes pulled out: a command-line hit feeds
      the exclude test too, so it never leads to selection. */
  lemma LegacySelectedMeaning(host: Host, opts: Options, l: LegacyLists, caller: string, rawCallee: string)
    ensures var callee := CalleeName(host, rawCallee);
            LegacySelected(host, opts, l, caller, rawCallee)
            <==> (callee in l.funcsOfInterest || caller + "/" + callee in l.funcsOfInterest
                  || exists p :: p in l.funcsOfInterestRegex && HashFits(callee, p))
                 && callee !in l.funcsExcl
                 && !(exists p :: p in l.funcsExclRegex && HashFits(callee, p))
                 && !CliHit(host, opts, callee)
  {
  }

  lemma LegacyCliHitRejects(host: Host, opts: Options, l: LegacyLists, caller: string, rawCallee: string)
    requires CliHit(host, opts, CalleeName(host, rawCallee))
    ensures !LegacySelected(host, opts, l, caller, rawCallee)
  {
  }

  /** Exclusion wins over every form of inclusion. */
  lemma LegacyExcludeWins(host: Host, opts: Options, l: LegacyLists, caller: string, rawCallee: string)
    requires var callee := CalleeName(host, rawCallee);
             callee in l.funcsExcl || exists p :: p in l.funcsExclRegex && HashFits(callee, p)
    ensures !LegacySelected(host, opts, l, caller, rawCallee)
  {
  }

  /** Listing `caller/callee` selects the calls from that caller to that callee when
      nothing excludes the callee. */
  lemma CallerKeySelects(host: Host, opts: Options, l: LegacyLists, caller: string, rawCallee: string)
    requires caller + "/" + CalleeName(host, rawCallee) in l.funcsOfInterest
    requires !CliHit(host, opts, CalleeName(host, rawCallee))
    requires var callee := CalleeName(host, rawCallee);
             callee !in l.funcsExcl && forall p :: p in l.funcsExclRegex ==> !HashFits(callee, p)
    ensures LegacySelected(host, opts, l, caller, rawCallee)
  {
  }
}
