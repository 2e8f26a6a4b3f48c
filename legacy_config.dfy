/** The configuration file format of the legacy revision (lib/Instrument.cpp,
    loadFunctionsFromFile): two sections only, no pattern compilation, four StringSets,
    and one error flag shared by every section of the file. */
module LegacyConfig {
  import opened Common

  /** The two sections the legacy loader knows. */
  datatype Side = Include | Exclude

  /** The four StringSets: literal names and '#'-wildcard lines, kept verbatim. */
  datatype LegacyLists = LegacyLists(funcsOfInterest: set<string>, funcsOfInterestRegex: set<string>,
                                     funcsExcl: set<string>, funcsExclRegex: set<string>)
  {
    /** Inserting a stored line: into the wildcard set of its side when it holds a '#',
        into the literal set otherwise. It stores what the set reading LegacyAddAll
        stores for a section of that one line. */
    function Add(side: Side, line: string): (r: LegacyLists)
      ensures r == LegacyAddAll(this, side, [line])
    {
      match side
      case Include =>
        if '#' in line then this.(funcsOfInterestRegex := funcsOfInterestRegex + {line})
        else this.(funcsOfInterest := funcsOfInterest + {line})
      case Exclude =>
        if '#' in line then this.(funcsExclRegex := funcsExclRegex + {line})
        else this.(funcsExcl := funcsExcl + {line})
    }
  }

  const NoLegacyLists: LegacyLists := LegacyLists({}, {}, {}, {})

  /** The loader's state between top-level lines, `rc` included: it starts true and is
      cleared by the first section that is closed. */
  datatype LegacyState = LegacyState(lists: LegacyLists, diagnostics: seq<Diagnostic>, rc: bool)

  const LegacyInitial: LegacyState := LegacyState(NoLegacyLists, [], true)

  /** Only the two exact BEGIN tokens open a section. */
  function LegacySectionOf(line: string): Option<Side>
  {
    if line == "BEGIN_INCLUDE_LIST" then Some(Include)
    else if line == "BEGIN_EXCLUDE_LIST" then Some(Exclude)
    else None
  }

  function LegacyEndToken(side: Side): string
  {
    match side
    case Include => "END_INCLUDE_LIST"
    case Exclude => "END_EXCLUDE_LIST"
  }

  datatype LegacySectionResult = LegacySectionResult(lists: LegacyLists, next: nat, closed: bool)

  /** One inner getline loop from line `pos`: space-only lines are skipped, the end
      token breaks out, every other line is stored. */
  function LegacyReadSection(l: LegacyLists, side: Side, lines: seq<string>, pos: nat): (r: LegacySectionResult)
    requires pos <= |lines|
    ensures pos <= r.next <= |lines|
    ensures r.closed ==> pos < r.next && lines[r.next - 1] == LegacyEndToken(side)
    ensures !r.closed ==> r.next == |lines|
    decreases |lines| - pos
  {
    if pos == |lines| then LegacySectionResult(l, pos, false)
    else if IsBlank(lines[pos]) then LegacyReadSection(l, side, lines, pos + 1)
    else if lines[pos] == LegacyEndToken(side) then LegacySectionResult(l, pos + 1, true)
    else LegacyReadSection(l.Add(side, lines[pos]), side, lines, pos + 1)
  }

  /** The outer getline loop from line `pos`. Top-level lines are not checked for
      blankness: anything but a BEGIN token, the empty line included, is reported. After
      a section the flag is cleared if the section was closed, and the unclosed-section
      error is reported only while the flag is still set. */
  function LegacyLoadFrom(st: LegacyState, lines: seq<string>, pos: nat): LegacyState
    requires pos <= |lines|
    decreases |lines| - pos
  {
    if pos == |lines| then st
    else match LegacySectionOf(lines[pos])
      case None =>
        LegacyLoadFrom(st.(diagnostics := st.diagnostics + [WrongSyntax]), lines, pos + 1)
      case Some(side) =>
        var r := LegacyReadSection(st.lists, side, lines, pos + 1);
        var rc := st.rc && !r.closed;
        var reports := if rc then [UnclosedSection(LegacyEndToken(side))] else [];
        LegacyLoadFrom(LegacyState(r.lists, st.diagnostics + reports, rc), lines, r.next)
  }

  function LegacyLoad(lines: seq<string>): LegacyState
  {
    LegacyLoadFrom(LegacyInitial, lines, 0)
  }

  // ---------------------------------------------------------------------------------

  /** Storing the lines `ls` of one side, as sets. */
  function LegacyAddAll(l: LegacyLists, side: Side, ls: seq<string>): (r: LegacyLists)
  {
    var lits := set x | x in ls && '#' !in x;
    var wild := set x | x in ls && '#' in x;
    match side
    case Include => l.(funcsOfInterest := l.funcsOfInterest + lits,
                       funcsOfInterestRegex := l.funcsOfInterestRegex + wild)
    case Exclude => l.(funcsExcl := l.funcsExcl + lits, funcsExclRegex := l.funcsExclRegex + wild)
  }

  lemma LegacyAddAllCons(l: LegacyLists, side: Side, x: string, ls: seq<string>)
    ensures LegacyAddAll(l.Add(side, x), side, ls) == LegacyAddAll(l, side, [x] + ls)
  {
    assert (set y | y in [x] + ls && '#' !in y) == (if '#' in x then {} else {x}) + (set y | y in ls && '#' !in y);
    assert (set y | y in [x] + ls && '#' in y) == (if '#' in x then {x} else {}) + (set y | y in ls && '#' in y);
  }

  /** A section stores exactly its non-blank lines before the end token, split by '#'
      between the literal and the wildcard set of its side; reading resumes after the
      end token, or stops at the end of the file. */
  lemma {:induction false} LegacyReadSectionMeaning(l: LegacyLists, side: Side, lines: seq<string>, pos: nat, e: nat)
    requires SectionEndsAt(lines, pos, LegacyEndToken(side), e)
    ensures LegacyReadSection(l, side, lines, pos)
            == LegacySectionResult(LegacyAddAll(l, side, NonBlank(lines[pos..e])),
                                   if e < |lines| then e + 1 else |lines|,
                                   e < |lines|)
    decreases |lines| - pos
  {
    if pos == e {
      assert lines[pos..e] == [];
      assert (set y: string | y in [] && '#' !in y) == {};
      assert (set y: string | y in [] && '#' in y) == {};
      if e < |lines| {
        assert lines[pos][0] == 'E';
      } else {
        assert LegacyAddAll(l, side, []) == l;
      }
    } else {
      assert lines[pos..e][1..] == lines[pos + 1..e];
      if IsBlank(lines[pos]) {
        LegacyReadSectionMeaning(l, side, lines, pos + 1, e);
      } else {
        LegacyReadSectionMeaning(l.Add(side, lines[pos]), side, lines, pos + 1, e);
        LegacyAddAllCons(l, side, lines[pos], NonBlank(lines[pos + 1..e]));
      }
    }
  }

  /** Once a section has been closed, no later section can report being unclosed: every
      report added from then on is a WrongSyntax. */
  lemma {:induction false} LegacyFlagSilences(st: LegacyState, lines: seq<string>, pos: nat)
    requires pos <= |lines|
    requires !st.rc
    ensures var res := LegacyLoadFrom(st, lines, pos);
            st.diagnostics <= res.diagnostics && !res.rc
            && forall i :: |st.diagnostics| <= i < |res.diagnostics| ==> res.diagnostics[i] == WrongSyntax
    decreases |lines| - pos
  {
    if pos < |lines| {
      match LegacySectionOf(lines[pos])
      case None =>
        LegacyFlagSilences(st.(diagnostics := st.diagnostics + [WrongSyntax]), lines, pos + 1);
      case Some(side) =>
        var r := LegacyReadSection(st.lists, side, lines, pos + 1);
        assert st.diagnostics + [] == st.diagnostics;
        LegacyFlagSilences(LegacyState(r.lists, st.diagnostics, false), lines, r.next);
    }
  }

  /** Without a BEGIN token in the rest of the file, nothing is stored and every line,
      blank or not, is reported as wrong syntax. */
  lemma {:induction false} LegacyStrayLines(st: LegacyState, lines: seq<string>, pos: nat)
    requires pos <= |lines|
    requires forall j :: pos <= j < |lines| ==> LegacySectionOf(lines[j]).None?
    ensures LegacyLoadFrom(st, lines, pos)
            == st.(diagnostics := st.diagnostics + seq(|lines| - pos, _ => WrongSyntax))
    decreases |lines| - pos
  {
    if pos == |lines| {
      assert st.diagnostics + [] == st.diagnostics;
    } else {
      LegacyStrayLines(st.(diagnostics := st.diagnostics + [WrongSyntax]), lines, pos + 1);
      assert st.diagnostics + [WrongSyntax] + seq(|lines| - pos - 1, _ => WrongSyntax)
          == st.diagnostics + seq(|lines| - pos, _ => WrongSyntax);
    }
  }
}
