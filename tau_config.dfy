/** The configuration file format of the current revision (lib/TAUInstrument.cpp,
    readUntilToken and loadFunctionsFromFile), as functions on the sequence of lines
    std::getline yields. The class in TauPass runs the same steps as loops; these
    functions are what its methods are proved against. */
module TauConfig {
  import opened Common
  import opened PatternCompiler

  /** One of the four lists, named after the section that fills it. */
  datatype ListKind = FuncInclude | FuncExclude | FileInclude | FileExclude

  /** The two collections that hold one list: a literal StringSet and the vector of
      compiled patterns, here kept as their regex sources in insertion order. */
  datatype PatternSet = PatternSet(literals: set<string>, patterns: seq<string>)
  {
    predicate IsEmpty()
    {
      literals == {} && patterns == []
    }

    /** Storing one entry adds exactly its contribution to the literals and to the
        patterns that LiteralsOf and PatternsOf collect for a whole section. */
    function Add(e: Entry): (r: PatternSet)
      ensures r.literals == literals + LiteralPart(e)
      ensures r.patterns == patterns + PatternPart(e)
    {
      match e
      case Literal(t) => PatternSet(literals + {t}, patterns)
      case Pattern(p) => PatternSet(literals, patterns + [p])
    }
  }

  const NoEntries: PatternSet := PatternSet({}, [])

  datatype Config = Config(funcIncl: PatternSet, funcExcl: PatternSet,
                           fileIncl: PatternSet, fileExcl: PatternSet)
  {
    function Get(k: ListKind): PatternSet
    {
      match k
      case FuncInclude => funcIncl
      case FuncExclude => funcExcl
      case FileInclude => fileIncl
      case FileExclude => fileExcl
    }

    function With(k: ListKind, ps: PatternSet): (c: Config)
      ensures c.Get(k) == ps
      ensures forall j :: j != k ==> c.Get(j) == Get(j)
    {
      match k
      case FuncInclude => this.(funcIncl := ps)
      case FuncExclude => this.(funcExcl := ps)
      case FileInclude => this.(fileIncl := ps)
      case FileExclude => this.(fileExcl := ps)
    }
  }

  const EmptyConfig: Config := Config(NoEntries, NoEntries, NoEntries, NoEntries)

  datatype LoadState = LoadState(config: Config, diagnostics: seq<Diagnostic>)

  const EmptyState: LoadState := LoadState(EmptyConfig, [])

  /** The token-to-list table: only the four exact BEGIN tokens open a section. */
  function SectionOf(line: string): Option<ListKind>
  {
    if line == "BEGIN_INCLUDE_LIST" then Some(FuncInclude)
    else if line == "BEGIN_EXCLUDE_LIST" then Some(FuncExclude)
    else if line == "BEGIN_FILE_INCLUDE_LIST" then Some(FileInclude)
    else if line == "BEGIN_FILE_EXCLUDE_LIST" then Some(FileExclude)
    else None
  }

  function EndToken(k: ListKind): string
  {
    match k
    case FuncInclude => "END_INCLUDE_LIST"
    case FuncExclude => "END_EXCLUDE_LIST"
    case FileInclude => "END_FILE_INCLUDE_LIST"
    case FileExclude => "END_FILE_EXCLUDE_LIST"
  }

  /** readUntilToken treats a section as a file list when its end token holds an 'F'. */
  predicate IsFileToken(token: string)
  {
    'F' in token
  }

  /** The end tokens are not blank, and exactly the two file lists' tokens hold an 'F'. */
  lemma EndTokenKinds(k: ListKind)
    ensures !IsBlank(EndToken(k))
    ensures IsFileToken(EndToken(k)) <==> (k == FileInclude || k == FileExclude)
  {
    var t := EndToken(k);
    assert t[0] == 'E';
    if k == FileInclude || k == FileExclude {
      assert t[4] == 'F';
    } else {
      assert forall i :: 0 <= i < |t| ==> t[i] != 'F';
    }
  }

  /** How a stored line of a section is compiled. */
  function Classify(isFile: bool, line: string): Entry
  {
    if isFile then FileEntry(line) else FunctionEntry(line)
  }

  datatype SectionResult = SectionResult(entries: PatternSet, next: nat, closed: bool)

  /** readUntilToken from line `pos`: space-only lines are skipped, the first line equal
      to the token ends the section and is not stored, every other line is classified
      and stored; reaching the end of the file leaves `closed` false and keeps what was
      read. */
  function ReadSection(ps: PatternSet, lines: seq<string>, pos: nat, token: string): (r: SectionResult)
    requires pos <= |lines|
    ensures pos <= r.next <= |lines|
    ensures r.closed ==> pos < r.next && lines[r.next - 1] == token
    ensures !r.closed ==> r.next == |lines|
    decreases |lines| - pos
  {
    if pos == |lines| then SectionResult(ps, pos, false)
    else if !IsBlank(lines[pos]) && lines[pos] == token then SectionResult(ps, pos + 1, true)
    else ReadSection(AfterLine(ps, lines[pos], token), lines, pos + 1, token)
  }

  /** The list after one line of a section: only a line that is neither space-only nor
      the END token adds an entry. */
  function AfterLine(ps: PatternSet, line: string, token: string): PatternSet
  {
    if IsBlank(line) || line == token then ps else ps.Add(Classify(IsFileToken(token), line))
  }

  /** One step of ReadSection, for the loop that runs it. */
  lemma ReadSectionStep(ps: PatternSet, lines: seq<string>, pos: nat, token: string)
    requires pos < |lines|
    ensures ReadSection(ps, lines, pos, token)
            == if !IsBlank(lines[pos]) && lines[pos] == token then SectionResult(ps, pos + 1, true)
               else ReadSection(AfterLine(ps, lines[pos], token), lines, pos + 1, token)
  {
  }

  /** loadFunctionsFromFile from line `pos`. A BEGIN token hands the following lines to
      ReadSection for its list; any other non-blank line is reported and skipped. */
  function LoadFrom(st: LoadState, lines: seq<string>, pos: nat): LoadState
    requires pos <= |lines|
    decreases |lines| - pos
  {
    if pos == |lines| then st
    else if IsBlank(lines[pos]) then LoadFrom(st, lines, pos + 1)
    else match SectionOf(lines[pos])
      case None =>
        LoadFrom(st.(diagnostics := st.diagnostics + [WrongSyntax]), lines, pos + 1)
      case Some(k) =>
        var r := ReadSection(st.config.Get(k), lines, pos + 1, EndToken(k));
        var reports := if r.closed then [] else [UnclosedSection(EndToken(k))];
        LoadFrom(LoadState(st.config.With(k, r.entries), st.diagnostics + reports), lines, r.next)
  }

  /** The configuration a whole file yields. */
  function Load(lines: seq<string>): LoadState
  {
    LoadFrom(EmptyState, lines, 0)
  }

  // ---------------------------------------------------------------------------------
  // A declarative reading of one section.

  /** Storing lines one after the other. */
  function AddAll(ps: PatternSet, isFile: bool, ls: seq<string>): PatternSet
    decreases |ls|
  {
    if ls == [] then ps else AddAll(ps.Add(Classify(isFile, ls[0])), isFile, ls[1..])
  }

  /** The literal texts and pattern sources a sequence of lines produces. */
  function LiteralsOf(isFile: bool, ls: seq<string>): set<string>
  {
    if ls == [] then {} else LiteralPart(Classify(isFile, ls[0])) + LiteralsOf(isFile, ls[1..])
  }

  function PatternsOf(isFile: bool, ls: seq<string>): seq<string>
  {
    if ls == [] then [] else PatternPart(Classify(isFile, ls[0])) + PatternsOf(isFile, ls[1..])
  }

  function LiteralPart(e: Entry): set<string>
  {
    if e.Literal? then {e.text} else {}
  }

  function PatternPart(e: Entry): seq<string>
  {
    if e.Pattern? then [e.source] else []
  }

  /** Storing is append-only, and every line lands in exactly one of the two
      collections: its literal in the set, or its pattern at the end of the vector. */
  lemma AddAllSplits(ps: PatternSet, isFile: bool, ls: seq<string>)
    ensures AddAll(ps, isFile, ls).literals == ps.literals + LiteralsOf(isFile, ls)
    ensures AddAll(ps, isFile, ls).patterns == ps.patterns + PatternsOf(isFile, ls)
  {
    AddAllLiterals(ps, isFile, ls);
    AddAllPatterns(ps, isFile, ls);
  }

  lemma {:induction false} AddAllLiterals(ps: PatternSet, isFile: bool, ls: seq<string>)
    ensures AddAll(ps, isFile, ls).literals == ps.literals + LiteralsOf(isFile, ls)
    decreases |ls|
  {
    if ls != [] {
      var e := Classify(isFile, ls[0]);
      var ps1 := ps.Add(e);
      assert AddAll(ps, isFile, ls) == AddAll(ps1, isFile, ls[1..]);
      assert LiteralsOf(isFile, ls) == LiteralPart(e) + LiteralsOf(isFile, ls[1..]);
      assert ps1.literals == ps.literals + LiteralPart(e);
      AddAllLiterals(ps1, isFile, ls[1..]);
    }
  }

  lemma {:induction false} AddAllPatterns(ps: PatternSet, isFile: bool, ls: seq<string>)
    ensures AddAll(ps, isFile, ls).patterns == ps.patterns + PatternsOf(isFile, ls)
    decreases |ls|
  {
    if ls != [] {
      var e := Classify(isFile, ls[0]);
      var ps1 := ps.Add(e);
      assert AddAll(ps, isFile, ls) == AddAll(ps1, isFile, ls[1..]);
      assert PatternsOf(isFile, ls) == PatternPart(e) + PatternsOf(isFile, ls[1..]);
      assert ps1.patterns == ps.patterns + PatternPart(e);
      AddAllPatterns(ps1, isFile, ls[1..]);
      assert ps.patterns + PatternPart(e) + PatternsOf(isFile, ls[1..])
             == ps.patterns + (PatternPart(e) + PatternsOf(isFile, ls[1..]));
    }
  }

  /** ReadSection stores, in order, exactly the non-blank lines before the section's
      end; the section counts as closed exactly when the end token was found, and
      reading resumes right after it (or at the end of the file). */
  lemma {:induction false} ReadSectionMeaning(ps: PatternSet, lines: seq<string>, pos: nat, token: string, e: nat)
    requires !IsBlank(token)
    requires SectionEndsAt(lines, pos, token, e)
    ensures ReadSection(ps, lines, pos, token)
            == SectionResult(AddAll(ps, IsFileToken(token), NonBlank(lines[pos..e])),
                             if e < |lines| then e + 1 else |lines|,
                             e < |lines|)
    decreases |lines| - pos
  {
    if pos == e {
      assert lines[pos..e] == [];
      if e < |lines| {
        assert !IsBlank(lines[pos]);
      }
    } else {
      assert lines[pos..e][1..] == lines[pos + 1..e];
      ReadSectionMeaning(ps.Add(Classify(IsFileToken(token), lines[pos])), lines, pos + 1, token, e);
      ReadSectionMeaning(ps, lines, pos + 1, token, e);
    }
  }

  // ---------------------------------------------------------------------------------
  // Properties of the whole load.

  /** `b` extends `a` on every list: no literal lost, patterns only appended. */
  predicate Extends(a: Config, b: Config)
  {
    forall k: ListKind :: a.Get(k).literals <= b.Get(k).literals
                          && a.Get(k).patterns <= b.Get(k).patterns
  }

  lemma {:induction false} ReadSectionGrows(ps: PatternSet, lines: seq<string>, pos: nat, token: string)
    requires pos <= |lines|
    ensures ps.literals <= ReadSection(ps, lines, pos, token).entries.literals
    ensures ps.patterns <= ReadSection(ps, lines, pos, token).entries.patterns
    decreases |lines| - pos
  {
    if pos < |lines| && !IsBlank(lines[pos]) && lines[pos] != token {
      ReadSectionGrows(ps.Add(Classify(IsFileToken(token), lines[pos])), lines, pos + 1, token);
    } else if pos < |lines| && IsBlank(lines[pos]) {
      ReadSectionGrows(ps, lines, pos + 1, token);
    }
  }

  /** Loading is append-only: the lists of the starting state survive in the result,
      and the reports already made stay at its front. */
  lemma {:induction false} LoadFromExtends(st: LoadState, lines: seq<string>, pos: nat)
    requires pos <= |lines|
    ensures Extends(st.config, LoadFrom(st, lines, pos).config)
    ensures st.diagnostics <= LoadFrom(st, lines, pos).diagnostics
    decreases |lines| - pos
  {
    if pos < |lines| {
      if IsBlank(lines[pos]) {
        LoadFromExtends(st, lines, pos + 1);
      } else {
        match SectionOf(lines[pos])
        case None =>
          var st' := st.(diagnostics := st.diagnostics + [WrongSyntax]);
          LoadFromExtends(st', lines, pos + 1);
        case Some(k) =>
          var r := ReadSection(st.config.Get(k), lines, pos + 1, EndToken(k));
          ReadSectionGrows(st.config.Get(k), lines, pos + 1, EndToken(k));
          var reports := if r.closed then [] else [UnclosedSection(EndToken(k))];
          var st' := LoadState(st.config.With(k, r.entries), st.diagnostics + reports);
          LoadFromExtends(st', lines, r.next);
          assert Extends(st.config, st'.config);
      }
    }
  }

  /** Lines outside every section store nothing: without a BEGIN token in the rest of
      the file, the lists stay as they are and one WrongSyntax report is added per
      non-blank line. */
  lemma {:induction false} StrayLinesStoreNothing(st: LoadState, lines: seq<string>, pos: nat)
    requires pos <= |lines|
    requires forall j :: pos <= j < |lines| ==> SectionOf(lines[j]).None?
    ensures LoadFrom(st, lines, pos)
            == LoadState(st.config, st.diagnostics + seq(|NonBlank(lines[pos..])|, _ => WrongSyntax))
    decreases |lines| - pos
  {
    if pos == |lines| {
      assert lines[pos..] == [];
      assert st.diagnostics + [] == st.diagnostics;
    } else {
      NonBlankCons(lines, pos);
      if IsBlank(lines[pos]) {
        StrayLinesStoreNothing(st, lines, pos + 1);
      } else {
        var st' := st.(diagnostics := st.diagnostics + [WrongSyntax]);
        StrayLinesStoreNothing(st', lines, pos + 1);
        var n := |NonBlank(lines[pos + 1..])|;
        assert st.diagnostics + [WrongSyntax] + seq(n, _ => WrongSyntax)
            == st.diagnostics + seq(n + 1, _ => WrongSyntax);
      }
    }
  }

  /** A line that opens a section of kind k: its BEGIN token, as BeginTokenOpens shows. */
  predicate Opens(line: string, k: ListKind)
  {
    SectionOf(line) == Some(k) && !IsBlank(line)
  }

  /** A BEGIN token hands the following lines to ReadSection for its list. */
  lemma LoadFromOpens(st: LoadState, lines: seq<string>, pos: nat, k: ListKind)
    requires pos < |lines| && Opens(lines[pos], k)
    ensures var r := ReadSection(st.config.Get(k), lines, pos + 1, EndToken(k));
            LoadFrom(st, lines, pos)
            == LoadFrom(LoadState(st.config.With(k, r.entries),
                                  st.diagnostics + if r.closed then [] else [UnclosedSection(EndToken(k))]),
                        lines, r.next)
  {
  }

  /** Loading over one closed section of kind k that starts at `pos`. */
  lemma LoadClosedSection(st: LoadState, lines: seq<string>, pos: nat, k: ListKind, e: nat)
    requires pos < |lines| && Opens(lines[pos], k)
    requires SectionEndsAt(lines, pos + 1, EndToken(k), e) && e < |lines|
    ensures LoadFrom(st, lines, pos)
            == LoadFrom(LoadState(st.config.With(k, AddAll(st.config.Get(k), IsFileToken(EndToken(k)),
                                                           NonBlank(lines[pos + 1..e]))),
                                  st.diagnostics), lines, e + 1)
  {
    var entries := AddAll(st.config.Get(k), IsFileToken(EndToken(k)), NonBlank(lines[pos + 1..e]));
    assert ReadSection(st.config.Get(k), lines, pos + 1, EndToken(k)) == SectionResult(entries, e + 1, true) by {
      ClosedRead(st.config.Get(k), lines, pos + 1, k, e);
    }
    LoadFromClosed(st, lines, pos, k, entries, e + 1);
  }

  /** A section read to its end token: its entries replace the list and nothing is
      reported. */
  lemma LoadFromClosed(st: LoadState, lines: seq<string>, pos: nat, k: ListKind, entries: PatternSet, next: nat)
    requires pos < |lines| && Opens(lines[pos], k)
    requires ReadSection(st.config.Get(k), lines, pos + 1, EndToken(k)) == SectionResult(entries, next, true)
    ensures next <= |lines|
    ensures LoadFrom(st, lines, pos) == LoadFrom(LoadState(st.config.With(k, entries), st.diagnostics), lines, next)
  {
    ClosedState(st, k, ReadSection(st.config.Get(k), lines, pos + 1, EndToken(k)));
    LoadFromOpens(st, lines, pos, k);
  }

  lemma ClosedRead(ps: PatternSet, lines: seq<string>, pos: nat, k: ListKind, e: nat)
    requires SectionEndsAt(lines, pos, EndToken(k), e) && e < |lines|
    ensures ReadSection(ps, lines, pos, EndToken(k))
            == SectionResult(AddAll(ps, IsFileToken(EndToken(k)), NonBlank(lines[pos..e])), e + 1, true)
  {
    EndTokenKinds(k);
    ReadSectionMeaning(ps, lines, pos, EndToken(k), e);
  }

  /** After a closed section nothing is reported. */
  lemma ClosedState(st: LoadState, k: ListKind, r: SectionResult)
    requires r.closed
    ensures LoadState(st.config.With(k, r.entries),
                      st.diagnostics + if r.closed then [] else [UnclosedSection(EndToken(k))])
            == LoadState(st.config.With(k, r.entries), st.diagnostics)
  {
    var none: seq<Diagnostic> := [];
    assert st.diagnostics + none == st.diagnostics;
  }


  /** A section that reaches the end of the file: what it read is kept, and one
      UnclosedSection report is added (the reader's own flag is never cleared). */
  lemma LoadUnclosedSection(st: LoadState, lines: seq<string>, pos: nat, k: ListKind)
    requires pos < |lines| && Opens(lines[pos], k)
    requires SectionEndsAt(lines, pos + 1, EndToken(k), |lines|)
    ensures LoadFrom(st, lines, pos)
            == LoadState(st.config.With(k, AddAll(st.config.Get(k), IsFileToken(EndToken(k)),
                                                  NonBlank(lines[pos + 1..|lines|]))),
                         st.diagnostics + [UnclosedSection(EndToken(k))])
  {
    var entries := AddAll(st.config.Get(k), IsFileToken(EndToken(k)), NonBlank(lines[pos + 1..|lines|]));
    var after := LoadState(st.config.With(k, entries), st.diagnostics + [UnclosedSection(EndToken(k))]);
    calc {
      LoadFrom(st, lines, pos);
    == { UnclosedRead(st.config.Get(k), lines, pos + 1, k); LoadFromOpens(st, lines, pos, k); }
      LoadFrom(after, lines, |lines|);
    == { LoadFromEnd(after, lines); }
      after;
    }
  }

  lemma UnclosedRead(ps: PatternSet, lines: seq<string>, pos: nat, k: ListKind)
    requires SectionEndsAt(lines, pos, EndToken(k), |lines|)
    ensures ReadSection(ps, lines, pos, EndToken(k))
            == SectionResult(AddAll(ps, IsFileToken(EndToken(k)), NonBlank(lines[pos..|lines|])), |lines|, false)
  {
    EndTokenKinds(k);
    ReadSectionMeaning(ps, lines, pos, EndToken(k), |lines|);
  }

  /** A section holding one non-blank line and closed by its END token stores that
      line's entry and lets the loader go on after the token. */
  lemma LoadOneLineSection(st: LoadState, lines: seq<string>, pos: nat, k: ListKind, e: Entry)
    requires pos + 2 < |lines| && Opens(lines[pos], k)
    requires !IsBlank(lines[pos + 1]) && lines[pos + 1] != EndToken(k) && lines[pos + 2] == EndToken(k)
    requires e == Classify(IsFileToken(EndToken(k)), lines[pos + 1])
    ensures LoadFrom(st, lines, pos)
            == LoadFrom(LoadState(st.config.With(k, st.config.Get(k).Add(e)), st.diagnostics), lines, pos + 3)
  {
    var ps := st.config.Get(k);
    assert ReadSection(ps, lines, pos + 1, EndToken(k)) == SectionResult(ps.Add(e), pos + 3, true) by {
      ReadSectionStep(ps, lines, pos + 1, EndToken(k));
      EndTokenKinds(k);
      ReadSectionStep(ps.Add(e), lines, pos + 2, EndToken(k));
    }
    LoadFromClosed(st, lines, pos, k, ps.Add(e), pos + 3);
  }

  /** A section whose one non-blank line is the last line of the file stores that line's
      entry and is reported as unclosed. */
  lemma LoadOneLineUnclosed(st: LoadState, lines: seq<string>, pos: nat, k: ListKind, e: Entry)
    requires pos + 2 == |lines| && Opens(lines[pos], k)
    requires !IsBlank(lines[pos + 1]) && lines[pos + 1] != EndToken(k)
    requires e == Classify(IsFileToken(EndToken(k)), lines[pos + 1])
    ensures LoadFrom(st, lines, pos)
            == LoadState(st.config.With(k, st.config.Get(k).Add(e)), st.diagnostics + [UnclosedSection(EndToken(k))])
  {
    var ps := st.config.Get(k);
    var after := LoadState(st.config.With(k, ps.Add(e)), st.diagnostics + [UnclosedSection(EndToken(k))]);
    assert ReadSection(ps, lines, pos + 1, EndToken(k)) == SectionResult(ps.Add(e), |lines|, false) by {
      ReadSectionStep(ps, lines, pos + 1, EndToken(k));
    }
    calc {
      LoadFrom(st, lines, pos);
    == { LoadFromOpens(st, lines, pos, k); }
      LoadFrom(after, lines, |lines|);
    == { LoadFromEnd(after, lines); }
      after;
    }
  }

  lemma LoadFromEnd(st: LoadState, lines: seq<string>)
    ensures LoadFrom(st, lines, |lines|) == st
  {
  }

  function BeginToken(k: ListKind): string
  {
    match k
    case FuncInclude => "BEGIN_INCLUDE_LIST"
    case FuncExclude => "BEGIN_EXCLUDE_LIST"
    case FileInclude => "BEGIN_FILE_INCLUDE_LIST"
    case FileExclude => "BEGIN_FILE_EXCLUDE_LIST"
  }

  /** Each BEGIN token opens its own list, and it is the only line that does. */
  lemma BeginTokenOpens(k: ListKind)
    ensures Opens(BeginToken(k), k)
    ensures forall line :: SectionOf(line) == Some(k) ==> line == BeginToken(k)
  {
    assert BeginToken(k)[0] == 'B';
  }
}
