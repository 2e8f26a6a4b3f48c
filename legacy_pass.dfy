/** The legacy pass object (lib/Instrument.cpp, struct Instrument): four StringSets
    filled by the constructor, and a per-function walk that gathers the selected call
    sites before any of them is instrumented. */
module LegacyPass {
  import opened Common
  import opened Host
  import opened LegacyConfig
  import opened LegacySelect

  /** What the walk sees of one instruction: a call with a statically known callee
      (its raw symbol name), an indirect call, or anything else. */
  datatype Instruction = DirectCall(callee: string) | IndirectCall | OtherInstruction

  /** A position in a function body: block number, then instruction number. */
  datatype Site = Site(block: nat, index: nat)

  /** An entry of the `calls` vector: the call site and the name it is reported under. */
  datatype CallAndName = CallAndName(site: Site, name: string)

  /** The entry a single instruction contributes to `calls`. */
  function SaveOne(host: Host, opts: Options, l: LegacyLists, caller: string, site: Site, inst: Instruction): seq<CallAndName>
  {
    if inst.DirectCall? && LegacySelected(host, opts, l, caller, inst.callee)
    then [CallAndName(site, CalleeName(host, inst.callee))]
    else []
  }

  /** The entries gathered from the first `n` instructions of block `b`. */
  function SavedInBlock(host: Host, opts: Options, l: LegacyLists, caller: string,
                        b: nat, block: seq<Instruction>, n: nat): seq<CallAndName>
    requires n <= |block|
  {
    if n == 0 then []
    else SavedInBlock(host, opts, l, caller, b, block, n - 1)
         + SaveOne(host, opts, l, caller, Site(b, n - 1), block[n - 1])
  }

  /** The entries gathered from the first `m` blocks, in instruction order. */
  function SavedCalls(host: Host, opts: Options, l: LegacyLists, caller: string,
                      blocks: seq<seq<Instruction>>, m: nat): seq<CallAndName>
    requires m <= |blocks|
  {
    if m == 0 then []
    else SavedCalls(host, opts, l, caller, blocks, m - 1)
         + SavedInBlock(host, opts, l, caller, m - 1, blocks[m - 1], |blocks[m - 1]|)
  }

  /** The site names a direct call whose callee is selected. */
  predicate SelectedSite(host: Host, opts: Options, l: LegacyLists, caller: string,
                         blocks: seq<seq<Instruction>>, s: Site)
  {
    s.block < |blocks| && s.index < |blocks[s.block]|
    && blocks[s.block][s.index].DirectCall?
    && LegacySelected(host, opts, l, caller, blocks[s.block][s.index].callee)
  }

  /** Site order: by block, then by instruction. */
  predicate Before(s: Site, t: Site)
  {
    s.block < t.block || (s.block == t.block && s.index < t.index)
  }

  /** Every entry of one block's walk is a selected direct call among the first `n`
      instructions, under its callee name. */
  lemma {:induction false} SavedInBlockSound(host: Host, opts: Options, l: LegacyLists, caller: string,
                                             blocks: seq<seq<Instruction>>, b: nat, n: nat)
    requires b < |blocks| && n <= |blocks[b]|
    ensures forall c :: c in SavedInBlock(host, opts, l, caller, b, blocks[b], n) ==>
              c.site.block == b && c.site.index < n
              && SelectedSite(host, opts, l, caller, blocks, c.site)
              && c.name == CalleeName(host, blocks[b][c.site.index].callee)
  {
    if n > 0 {
      SavedInBlockSound(host, opts, l, caller, blocks, b, n - 1);
    }
  }

  /** Every selected direct call among the first `n` instructions has an entry. */
  lemma {:induction false} SavedInBlockComplete(host: Host, opts: Options, l: LegacyLists, caller: string,
                                                blocks: seq<seq<Instruction>>, b: nat, n: nat)
    requires b < |blocks| && n <= |blocks[b]|
    ensures forall i :: 0 <= i < n && SelectedSite(host, opts, l, caller, blocks, Site(b, i)) ==>
              exists c :: c in SavedInBlock(host, opts, l, caller, b, blocks[b], n) && c.site == Site(b, i)
  {
    if n > 0 {
      SavedInBlockComplete(host, opts, l, caller, blocks, b, n - 1);
      var prev: seq<CallAndName> := SavedInBlock(host, opts, l, caller, b, blocks[b], n - 1);
      var one: seq<CallAndName> := SaveOne(host, opts, l, caller, Site(b, n - 1), blocks[b][n - 1]);
      assert SavedInBlock(host, opts, l, caller, b, blocks[b], n) == prev + one;
      if one != [] {
        assert one[0] in prev + one;
      }
    }
  }

  /** Entries listed in strictly increasing site order. */
  predicate Ordered(saved: seq<CallAndName>)
  {
    forall x, y :: 0 <= x < y < |saved| ==> Before(saved[x].site, saved[y].site)
  }

  /** One block's entries are in increasing instruction order. */
  lemma {:induction false} SavedInBlockOrdered(host: Host, opts: Options, l: LegacyLists, caller: string,
                                               blocks: seq<seq<Instruction>>, b: nat, n: nat)
    requires b < |blocks| && n <= |blocks[b]|
    ensures Ordered(SavedInBlock(host, opts, l, caller, b, blocks[b], n))
  {
    if n > 0 {
      SavedInBlockOrdered(host, opts, l, caller, blocks, b, n - 1);
      SavedInBlockSound(host, opts, l, caller, blocks, b, n - 1);
      var prev: seq<CallAndName> := SavedInBlock(host, opts, l, caller, b, blocks[b], n - 1);
      var one: seq<CallAndName> := SaveOne(host, opts, l, caller, Site(b, n - 1), blocks[b][n - 1]);
      assert SavedInBlock(host, opts, l, caller, b, blocks[b], n) == prev + one;
      forall x: int, y: int | 0 <= x < y < |prev + one|
        ensures Before((prev + one)[x].site, (prev + one)[y].site)
      {
        if y < |prev| {
          assert (prev + one)[x] == prev[x] && (prev + one)[y] == prev[y];
          assert Before(prev[x].site, prev[y].site);
        } else {
          assert |one| == 1 && y == |prev| && (prev + one)[y] == one[0];
          assert one[0].site == Site(b, n - 1);
          assert (prev + one)[x] == prev[x] && prev[x] in prev;
          assert prev[x].site.block == b && prev[x].site.index < n - 1;
        }
      }
    }
  }

  /** One block's entries: exactly its selected direct calls among the first `n`
      instructions, each under its callee name, in increasing order. */
  lemma SavedInBlockMeaning(host: Host, opts: Options, l: LegacyLists, caller: string,
                            blocks: seq<seq<Instruction>>, b: nat, n: nat)
    requires b < |blocks| && n <= |blocks[b]|
    ensures var saved := SavedInBlock(host, opts, l, caller, b, blocks[b], n);
            (forall c :: c in saved ==> c.site.block == b && c.site.index < n
                                        && SelectedSite(host, opts, l, caller, blocks, c.site)
                                        && c.name == CalleeName(host, blocks[b][c.site.index].callee))
            && (forall i :: 0 <= i < n && SelectedSite(host, opts, l, caller, blocks, Site(b, i))
                            ==> exists c :: c in saved && c.site == Site(b, i))
            && (forall x, y :: 0 <= x < y < |saved| ==> Before(saved[x].site, saved[y].site))
  {
    SavedInBlockSound(host, opts, l, caller, blocks, b, n);
    SavedInBlockComplete(host, opts, l, caller, blocks, b, n);
    SavedInBlockOrdered(host, opts, l, caller, blocks, b, n);
  }

  /** The whole walk: `calls` holds exactly the selected direct calls of the first `m`
      blocks, each once, under its callee name, in instruction order. */
  lemma {:induction false} SavedCallsMeaning(host: Host, opts: Options, l: LegacyLists, caller: string,
                                            blocks: seq<seq<Instruction>>, m: nat)
    requires m <= |blocks|
    ensures var saved := SavedCalls(host, opts, l, caller, blocks, m);
            (forall c :: c in saved ==> c.site.block < m
                                        && SelectedSite(host, opts, l, caller, blocks, c.site)
                                        && c.name == CalleeName(host, blocks[c.site.block][c.site.index].callee))
            && (forall s: Site :: s.block < m && SelectedSite(host, opts, l, caller, blocks, s)
                            ==> exists c :: c in saved && c.site == s)
            && (forall x, y :: 0 <= x < y < |saved| ==> Before(saved[x].site, saved[y].site))
  {
    if m > 0 {
      SavedCallsMeaning(host, opts, l, caller, blocks, m - 1);
      SavedInBlockMeaning(host, opts, l, caller, blocks, m - 1, |blocks[m - 1]|);
      var prev := SavedCalls(host, opts, l, caller, blocks, m - 1);
      var last := SavedInBlock(host, opts, l, caller, m - 1, blocks[m - 1], |blocks[m - 1]|);
      assert SavedCalls(host, opts, l, caller, blocks, m) == prev + last;
      forall s: Site | s.block < m && SelectedSite(host, opts, l, caller, blocks, s)
        ensures exists c: CallAndName :: c in prev + last && c.site == s
      {
        if s.block < m - 1 {
          var c :| c in prev && c.site == s;
          assert c in prev + last;
        } else {
          assert s == Site(m - 1, s.index);
          var c :| c in last && c.site == s;
          assert c in prev + last;
        }
      }
      forall x, y | 0 <= x < y < |prev + last|
        ensures Before((prev + last)[x].site, (prev + last)[y].site)
      {
        if y >= |prev| && x < |prev| {
          assert (prev + last)[x] in prev;
          assert (prev + last)[y] in last;
        }
      }
    }
  }

  class Instrument {
    var funcsOfInterest: set<string>
    var funcsExcl: set<string>
    var funcsOfInterestRegex: set<string>
    var funcsExclRegex: set<string>
    /** What the loader reported on the diagnostic stream about the file's structure. */
    var diagnostics: seq<Diagnostic>
    const opts: Options

    function Lists(): LegacyLists
      reads this
    {
      LegacyLists(funcsOfInterest, funcsOfInterestRegex, funcsExcl, funcsExclRegex)
    }

    /** The file is loaded only when an input file was named. */
    constructor(opts: Options, inputLines: seq<string>)
      ensures this.opts == opts
      ensures var st := if opts.inputFile != "" then LegacyLoad(inputLines) else LegacyInitial;
              Lists() == st.lists && diagnostics == st.diagnostics
    {
      this.opts := opts;
      funcsOfInterest, funcsExcl, funcsOfInterestRegex, funcsExclRegex := {}, {}, {}, {};
      diagnostics := [];
      new;
      if opts.inputFile != "" {
        LoadFunctionsFromFile(inputLines);
      }
    }

    /** One of the two inner getline loops, which the original writes out once per side;
        `closed` is whether it left through the end token (where the original clears
        `rc`). */
    method ReadList(lines: seq<string>, start: nat, side: Side) returns (next: nat, closed: bool)
      requires start <= |lines|
      modifies this
      ensures var r := LegacyReadSection(old(Lists()), side, lines, start);
              next == r.next && closed == r.closed && Lists() == r.lists
      ensures diagnostics == old(diagnostics)
    {
      var token := LegacyEndToken(side);
      var i := start;
      while i < |lines|
        invariant start <= i <= |lines|
        invariant LegacyReadSection(Lists(), side, lines, i) == LegacyReadSection(old(Lists()), side, lines, start)
        invariant diagnostics == old(diagnostics)
        decreases |lines| - i
      {
        var line := lines[i];
        i := i + 1;
        if !IsBlank(line) {
          if line == token {
            return i, true;
          }
          if '#' !in line {
            if side == Include {
              funcsOfInterest := funcsOfInterest + {line};
            } else {
              funcsExcl := funcsExcl + {line};
            }
          } else {
            if side == Include {
              funcsOfInterestRegex := funcsOfInterestRegex + {line};
            } else {
              funcsExclRegex := funcsExclRegex + {line};
            }
          }
        }
      }
      return i, false;
    }

    /** loadFunctionsFromFile, with its flag `rc` shared by all sections. */
    method LoadFunctionsFromFile(lines: seq<string>)
      modifies this
      ensures var st := LegacyLoadFrom(LegacyState(old(Lists()), old(diagnostics), true), lines, 0);
              Lists() == st.lists && diagnostics == st.diagnostics
    {
      var rc := true;
      var i := 0;
      while i < |lines|
        invariant 0 <= i <= |lines|
        invariant LegacyLoadFrom(LegacyState(Lists(), diagnostics, rc), lines, i)
                  == LegacyLoadFrom(LegacyState(old(Lists()), old(diagnostics), true), lines, 0)
        decreases |lines| - i
      {
        ghost var st := LegacyState(Lists(), diagnostics, rc);
        ghost var i0 := i;
        var line := lines[i];
        i := i + 1;
        match LegacySectionOf(line)
        case Some(side) =>
          ghost var r := LegacyReadSection(st.lists, side, lines, i);
          var closed;
          i, closed := ReadList(lines, i, side);
          if closed {
            rc := false;
          }
          if rc {
            diagnostics := diagnostics + [UnclosedSection(LegacyEndToken(side))];
          }
          assert rc == (st.rc && !r.closed);
          assert diagnostics == st.diagnostics + (if rc then [UnclosedSection(LegacyEndToken(side))] else []);
          assert LegacyLoadFrom(st, lines, i0) == LegacyLoadFrom(LegacyState(Lists(), diagnostics, rc), lines, i);
        case None =>
          diagnostics := diagnostics + [WrongSyntax];
      }
    }

    /** regexFits: the command-line regexes, then each wildcard line in turn. */
    method RegexFits(name: string, regexList: set<string>, host: Host) returns (r: bool)
      ensures r == LegacyFits(host, opts, name, regexList)
    {
      var match_, imatch := false, false;
      if opts.regex != "" {
        match_ := host.regexSearch(opts.regex, false, name);
      }
      if opts.iregex != "" {
        imatch := host.regexSearch(opts.iregex, true, name);
      }
      if match_ || imatch {
        return true;
      }
      var rest := regexList;
      while rest != {}
        invariant rest <= regexList
        invariant forall p :: p in regexList - rest ==> !HashFits(name, p)
        decreases |rest|
      {
        var p :| p in rest;
        if SearchFrom(name, p, 0) != |name| {
          return true;
        }
        rest := rest - {p};
      }
      return false;
    }

    /** maybeSaveForProfiling for the instruction at `site` of the function named
        `caller`: a selected direct call is appended to `calls`. */
    method MaybeSaveForProfiling(caller: string, site: Site, inst: Instruction, calls: seq<CallAndName>, host: Host)
      returns (calls': seq<CallAndName>)
      ensures calls' == calls + SaveOne(host, opts, Lists(), caller, site, inst)
    {
      calls' := calls;
      if inst.DirectCall? {
        var calleeName := host.normalizeName(inst.callee);
        if calleeName == "" {
          calleeName := inst.callee;
        }
        var parent := caller + "/" + calleeName;
        var inclFits := RegexFits(calleeName, funcsOfInterestRegex, host);
        var exclFits := RegexFits(calleeName, funcsExclRegex, host);
        if (calleeName in funcsOfInterest || inclFits || parent in funcsOfInterest)
           && !(calleeName in funcsExcl || exclFits) {
          calls' := calls + [CallAndName(site, calleeName)];
        }
      }
    }

    /** The walk of runOnFunction over blocks and instructions. */
    method CollectCalls(caller: string, blocks: seq<seq<Instruction>>, host: Host) returns (calls: seq<CallAndName>)
      ensures calls == SavedCalls(host, opts, Lists(), caller, blocks, |blocks|)
    {
      calls := [];
      var b := 0;
      while b < |blocks|
        invariant 0 <= b <= |blocks|
        invariant calls == SavedCalls(host, opts, Lists(), caller, blocks, b)
      {
        var i := 0;
        while i < |blocks[b]|
          invariant 0 <= i <= |blocks[b]|
          invariant calls == SavedCalls(host, opts, Lists(), caller, blocks, b)
                             + SavedInBlock(host, opts, Lists(), caller, b, blocks[b], i)
        {
          calls := MaybeSaveForProfiling(caller, Site(b, i), blocks[b][i], calls, host);
          i := i + 1;
        }
        b := b + 1;
      }
    }

    /** runOnFunction, reduced to its result: false in dry-run mode, otherwise what
        addInstrumentation reports, which is whether any call was gathered. */
    method RunOnFunction(caller: string, blocks: seq<seq<Instruction>>, host: Host) returns (modified: bool)
      ensures modified == (!opts.dryRun && |SavedCalls(host, opts, Lists(), caller, blocks, |blocks|)| > 0)
    {
      var calls := CollectCalls(caller, blocks, host);
      if opts.dryRun && |calls| > 0 {
        return false;
      }
      modified := |calls| > 0;
    }
  }
}
