/** What the compiled wildcard lines mean. For a line free of the regex metacharacters
    the compiler does not handle, the regex source it builds is exactly the rendering of
    a token sequence read off the line character by character, so its regex_match
    meaning is the cut reading of RegexSubset. */
module Wildcards {
  import opened Common
  import opened PatternCompiler
  import opened RegexSubset

  // ---------------------------------------------------------------------------------
  // Function lines: '#' is "any sequence", '.' stays the regex wildcard, and every
  // other character stands for itself.

  function FunctionTokenOf(c: char): Token
  {
    if c == '#' then AnySeq else if c == '.' then AnyChar else Lit(c)
  }

  function FunctionTokens(line: string): seq<Token>
  {
    if line == [] then [] else [FunctionTokenOf(line[0])] + FunctionTokens(line[1..])
  }

  /** No metacharacter but the three the compiler escapes, and '.'. */
  predicate FunctionPlain(line: string)
  {
    forall i :: 0 <= i < |line| ==> line[i] !in Special || line[i] in {'(', ')', '*', '.'}
  }

  lemma CompileFunctionAppend(a: string, b: string)
    ensures CompileFunctionPattern(a + b) == CompileFunctionPattern(a) + CompileFunctionPattern(b)
  {
    var a1, b1 := ReplaceChar(a, '(', "\\("), ReplaceChar(b, '(', "\\(");
    ReplaceCharAppend(a, b, '(', "\\(");
    var a2, b2 := ReplaceChar(a1, ')', "\\)"), ReplaceChar(b1, ')', "\\)");
    ReplaceCharAppend(a1, b1, ')', "\\)");
    var a3, b3 := ReplaceChar(a2, '*', "\\*"), ReplaceChar(b2, '*', "\\*");
    ReplaceCharAppend(a2, b2, '*', "\\*");
    ReplaceCharAppend(a3, b3, '#', "(.*)");
  }

  lemma CompileFunctionChar(c: char)
    requires c !in Special || c in {'(', ')', '*', '.'}
    ensures CompileFunctionPattern([c]) == RenderToken(FunctionTokenOf(c))
  {
    ReplaceCharSingle(c, '(', "\\(");
    var s1 := ReplaceChar([c], '(', "\\(");
    if c == '(' { ReplaceCharAbsent(s1, ')', "\\)"); } else { ReplaceCharSingle(c, ')', "\\)"); }
    var s2 := ReplaceChar(s1, ')', "\\)");
    assert s2 == (if c == '(' then "\\(" else if c == ')' then "\\)" else [c]);
    if c == '(' || c == ')' { ReplaceCharAbsent(s2, '*', "\\*"); } else { ReplaceCharSingle(c, '*', "\\*"); }
    var s3 := ReplaceChar(s2, '*', "\\*");
    assert s3 == (if c in {'(', ')', '*'} then ['\\', c] else [c]);
    if c in {'(', ')', '*'} { ReplaceCharAbsent(s3, '#', "(.*)"); } else { ReplaceCharSingle(c, '#', "(.*)"); }
  }

  /** The four regex_replace passes of a function line are one per-character encoding:
      escaping runs before '#' is expanded, so the group "(.*)" itself stays unescaped. */
  lemma {:induction false} FunctionPatternRenders(line: string)
    requires FunctionPlain(line)
    ensures CompileFunctionPattern(line) == Render(FunctionTokens(line))
  {
    if line == [] {
    } else {
      assert line == [line[0]] + line[1..];
      CompileFunctionAppend([line[0]], line[1..]);
      CompileFunctionChar(line[0]);
      assert FunctionPlain(line[1..]) by {
        forall i | 0 <= i < |line| - 1
          ensures line[1..][i] !in Special || line[1..][i] in {'(', ')', '*', '.'}
        {
          assert line[1..][i] == line[i + 1];
        }
      }
      FunctionPatternRenders(line[1..]);
    }
  }

  /** A plain function pattern full-matches a name exactly when the name can be cut
      into one piece per character of the line, where '#' takes any run of characters
      (line terminators excepted), '.' takes one character, and every other character
      takes itself. */
  lemma FunctionPatternMeaning(line: string, name: string)
    requires FunctionPlain(line)
    ensures Parse(CompileFunctionPattern(line)) == Some(FunctionTokens(line))
    ensures SubsetFullMatch(CompileFunctionPattern(line), name)
            <==> exists pieces :: Admits(FunctionTokens(line), pieces) && Concat(pieces) == name
  {
    FunctionPatternRenders(line);
    ParseRender(FunctionTokens(line));
    MatchesIffCut(FunctionTokens(line), name);
  }

  // ---------------------------------------------------------------------------------
  // File lines: '*' is "any sequence", '?' is "at most one character", and '.', never
  // escaped, is any one character.

  function FileTokenOf(c: char): Token
  {
    if c == '*' then AnySeq else if c == '?' then AnyOpt else if c == '.' then AnyChar else Lit(c)
  }

  function FileTokens(line: string): seq<Token>
  {
    if line == [] then [] else [FileTokenOf(line[0])] + FileTokens(line[1..])
  }

  /** No metacharacter but the two wildcards and '.'. */
  predicate FilePlain(line: string)
  {
    forall i :: 0 <= i < |line| ==> line[i] !in Special || line[i] in {'*', '?', '.'}
  }

  lemma CompileFileAppend(a: string, b: string)
    ensures CompileFilePattern(a + b) == CompileFilePattern(a) + CompileFilePattern(b)
  {
    ReplaceCharAppend(a, b, '*', "(.*)");
    ReplaceCharAppend(ReplaceChar(a, '*', "(.*)"), ReplaceChar(b, '*', "(.*)"), '?', "(.?)");
  }

  lemma CompileFileChar(c: char)
    requires c !in Special || c in {'*', '?', '.'}
    ensures CompileFilePattern([c]) == RenderToken(FileTokenOf(c))
  {
    ReplaceCharSingle(c, '*', "(.*)");
    var s1 := ReplaceChar([c], '*', "(.*)");
    if c == '*' { ReplaceCharAbsent(s1, '?', "(.?)"); } else { ReplaceCharSingle(c, '?', "(.?)"); }
  }

  /** The two regex_replace passes of a file line are one per-character encoding. */
  lemma {:induction false} FilePatternRenders(line: string)
    requires FilePlain(line)
    ensures CompileFilePattern(line) == Render(FileTokens(line))
  {
    if line == [] {
    } else {
      assert line == [line[0]] + line[1..];
      CompileFileAppend([line[0]], line[1..]);
      CompileFileChar(line[0]);
      assert FilePlain(line[1..]) by {
        forall i | 0 <= i < |line| - 1
          ensures line[1..][i] !in Special || line[1..][i] in {'*', '?', '.'}
        {
          assert line[1..][i] == line[i + 1];
        }
      }
      FilePatternRenders(line[1..]);
    }
  }

  /** A plain file pattern full-matches a file name exactly when the name can be cut
      into one piece per character of the line: '*' takes any run, '?' takes zero or
      one character, '.' takes any one character, every other character itself. */
  lemma FilePatternMeaning(line: string, file: string)
    requires FilePlain(line)
    ensures Parse(CompileFilePattern(line)) == Some(FileTokens(line))
    ensures SubsetFullMatch(CompileFilePattern(line), file)
            <==> exists pieces :: Admits(FileTokens(line), pieces) && Concat(pieces) == file
  {
    FilePatternRenders(line);
    ParseRender(FileTokens(line));
    MatchesIffCut(FileTokens(line), file);
  }

  // ---------------------------------------------------------------------------------
  // Lines with one wildcard between plain text.

  /** Text with no regex metacharacter and no '#': it stands for itself in both kinds of
      line. */
  predicate Verbatim(w: string)
  {
    forall i :: 0 <= i < |w| ==> w[i] !in Special && w[i] != '#'
  }

  lemma VerbatimTail(w: string)
    requires w != [] && Verbatim(w)
    ensures Verbatim(w[1..]) && w[0] !in Special && w[0] != '#'
  {
    forall i | 0 <= i < |w| - 1 ensures w[1..][i] !in Special && w[1..][i] != '#' {
      assert w[1..][i] == w[i + 1];
    }
  }

  lemma {:induction false} FunctionTokensAppend(a: string, b: string)
    ensures FunctionTokens(a + b) == FunctionTokens(a) + FunctionTokens(b)
  {
    if a == [] {
      assert a + b == b;
    } else {
      assert (a + b)[0] == a[0] && (a + b)[1..] == a[1..] + b;
      FunctionTokensAppend(a[1..], b);
    }
  }

  lemma {:induction false} FunctionTokensVerbatim(w: string)
    requires Verbatim(w)
    ensures FunctionTokens(w) == Lits(w)
  {
    if w != [] {
      VerbatimTail(w);
      FunctionTokensVerbatim(w[1..]);
    }
  }

  lemma {:induction false} FileTokensAppend(a: string, b: string)
    ensures FileTokens(a + b) == FileTokens(a) + FileTokens(b)
  {
    if a == [] {
      assert a + b == b;
    } else {
      assert (a + b)[0] == a[0] && (a + b)[1..] == a[1..] + b;
      FileTokensAppend(a[1..], b);
    }
  }

  lemma {:induction false} FileTokensVerbatim(w: string)
    requires Verbatim(w)
    ensures FileTokens(w) == Lits(w)
  {
    if w != [] {
      VerbatimTail(w);
      FileTokensVerbatim(w[1..]);
    }
  }

  /** Lits(w) matches exactly w. */
  lemma LitsExactly(w: string, s: string)
    ensures Matches(Lits(w), s) <==> s == w
  {
    MatchesLits(w, [], s);
    assert Lits(w) + [] == Lits(w);
    if |s| >= |w| {
      assert s == s[..|w|] + s[|w|..];
    }
  }

  /** Plain text around one of the characters a function line may hold. */
  lemma FunctionPlainAround(a: string, c: char, b: string)
    requires Verbatim(a) && Verbatim(b) && (c !in Special || c in {'(', ')', '*', '.'})
    ensures FunctionPlain(a + [c] + b)
  {
    var line := a + [c] + b;
    forall i | 0 <= i < |line| ensures line[i] !in Special || line[i] in {'(', ')', '*', '.'} {
      if i < |a| { assert line[i] == a[i]; }
      else if i > |a| { assert line[i] == b[i - |a| - 1]; }
    }
  }

  /** Plain text around one of the characters a file line may hold. */
  lemma FilePlainAround(a: string, c: char, b: string)
    requires Verbatim(a) && Verbatim(b) && (c !in Special || c in {'*', '?', '.'})
    ensures FilePlain(a + [c] + b)
  {
    var line := a + [c] + b;
    forall i | 0 <= i < |line| ensures line[i] !in Special || line[i] in {'*', '?', '.'} {
      if i < |a| { assert line[i] == a[i]; }
      else if i > |a| { assert line[i] == b[i - |a| - 1]; }
    }
  }

  lemma FunctionTokensAround(a: string, c: char, b: string)
    requires Verbatim(a) && Verbatim(b)
    ensures FunctionTokens(a + [c] + b) == Lits(a) + ([FunctionTokenOf(c)] + Lits(b))
  {
    FunctionTokensAppend(a + [c], b);
    FunctionTokensAppend(a, [c]);
    FunctionTokensVerbatim(a);
    FunctionTokensVerbatim(b);
    assert [c][1..] == [];
    assert FunctionTokens([c]) == [FunctionTokenOf(c)];
    ConcatAssoc(Lits(a), [FunctionTokenOf(c)], Lits(b));
  }

  lemma FileTokensAround(a: string, c: char, b: string)
    requires Verbatim(a) && Verbatim(b)
    ensures FileTokens(a + [c] + b) == Lits(a) + ([FileTokenOf(c)] + Lits(b))
  {
    FileTokensAppend(a + [c], b);
    FileTokensAppend(a, [c]);
    FileTokensVerbatim(a);
    FileTokensVerbatim(b);
    assert [c][1..] == [];
    assert FileTokens([c]) == [FileTokenOf(c)];
    ConcatAssoc(Lits(a), [FileTokenOf(c)], Lits(b));
  }

  lemma SingleWildcardLine(a: string, b: string)
    requires Verbatim(a) && Verbatim(b)
    ensures FunctionPlain(a + "#" + b)
    ensures FunctionTokens(a + "#" + b) == Lits(a) + ([AnySeq] + Lits(b))
  {
    FunctionPlainAround(a, '#', b);
    FunctionTokensAround(a, '#', b);
  }

  /** The tokens a function line a#b denotes, for plain a and b. */
  lemma SingleWildcardTokens(a: string, b: string)
    requires Verbatim(a) && Verbatim(b)
    ensures Parse(CompileFunctionPattern(a + "#" + b)) == Some(Lits(a) + ([AnySeq] + Lits(b)))
  {
    SingleWildcardLine(a, b);
    FunctionPatternRenders(a + "#" + b);
    ParseRender(FunctionTokens(a + "#" + b));
  }

  /** a, then "(.*)", then b: every match is such a name ... */
  lemma PrefixAnySuffixSound(a: string, b: string, name: string)
    requires Matches(Lits(a) + ([AnySeq] + Lits(b)), name)
    ensures exists x :: name == a + x + b && NoLineTerminator(x)
  {
    var tail := [AnySeq] + Lits(b);
    MatchesLits(a, tail, name);
    var r := name[|a|..];
    MatchesAnySeqFront(Lits(b), r);
    var k :| 0 <= k <= |r| && NoLineTerminator(r[..k]) && Matches(Lits(b), r[k..]);
    LitsExactly(b, r[k..]);
    var x := r[..k];
    assert name == a + r && r == x + b;
    ConcatAssoc(a, x, b);
  }

  /** ... and every such name is matched. */
  lemma PrefixAnySuffixComplete(a: string, b: string, x: string)
    requires NoLineTerminator(x)
    ensures Matches(Lits(a) + ([AnySeq] + Lits(b)), a + x + b)
  {
    var name := a + x + b;
    var tail := [AnySeq] + Lits(b);
    MatchesLits(a, tail, name);
    var r := name[|a|..];
    assert name[..|a|] == a && r == x + b;
    assert r[..|x|] == x && r[|x|..] == b;
    LitsExactly(b, r[|x|..]);
    MatchesAnySeqFront(Lits(b), r);
  }

  /** The function line a#b, with plain a and b, full-matches exactly the names made of
      a, then any stretch without a line terminator (the empty one included), then b. */
  lemma SingleWildcardMeaning(a: string, b: string, name: string)
    requires Verbatim(a) && Verbatim(b)
    ensures SubsetFullMatch(CompileFunctionPattern(a + "#" + b), name)
            <==> exists x :: name == a + x + b && NoLineTerminator(x)
  {
    SingleWildcardTokens(a, b);
    if Matches(Lits(a) + ([AnySeq] + Lits(b)), name) {
      PrefixAnySuffixSound(a, b, name);
    }
    if exists x :: name == a + x + b && NoLineTerminator(x) {
      var x :| name == a + x + b && NoLineTerminator(x);
      PrefixAnySuffixComplete(a, b, x);
    }
  }

  /** The tokens a file line "*." + w denotes, for plain w. */
  lemma StarDotTokens(w: string)
    requires Verbatim(w)
    ensures Parse(CompileFilePattern("*." + w)) == Some([AnySeq] + ([AnyChar] + Lits(w)))
  {
    var line := "*." + w;
    assert FilePlain(line) by {
      forall i | 0 <= i < |line| ensures line[i] !in Special || line[i] in {'*', '?', '.'} {
        if i >= 2 { assert line[i] == w[i - 2]; }
      }
    }
    FilePatternRenders(line);
    ParseRender(FileTokens(line));
    FileTokensAppend("*.", w);
    FileTokensVerbatim(w);
    assert FileTokens("*.") == [AnySeq, AnyChar];
  }

  /** "(.*)", then '.', then w: every match is such a name ... */
  lemma AnyOneSuffixSound(w: string, file: string)
    requires Matches([AnySeq] + ([AnyChar] + Lits(w)), file)
    ensures exists x :: file == x + w && |x| >= 1 && NoLineTerminator(x)
  {
    var tail := [AnyChar] + Lits(w);
    MatchesAnySeqFront(tail, file);
    assert tail[0] == AnyChar && tail[1..] == Lits(w);
    var k :| 0 <= k <= |file| && NoLineTerminator(file[..k]) && Matches(tail, file[k..]);
    var front, r := file[..k], file[k..];
    assert r != [] && !IsLineTerminator(r[0]) && Matches(Lits(w), r[1..]);
    LitsExactly(w, r[1..]);
    assert NoLineTerminator([r[0]]);
    NoLineTerminatorAppend(front, [r[0]]);
    assert file == front + r && r == [r[0]] + w;
    ConcatAssoc(front, [r[0]], w);
    assert file == (front + [r[0]]) + w;
  }

  /** ... and every such name is matched. */
  lemma AnyOneSuffixComplete(w: string, x: string)
    requires |x| >= 1 && NoLineTerminator(x)
    ensures Matches([AnySeq] + ([AnyChar] + Lits(w)), x + w)
  {
    var file := x + w;
    var tail := [AnyChar] + Lits(w);
    assert tail[0] == AnyChar && tail[1..] == Lits(w);
    var k := |x| - 1;
    var r := file[k..];
    assert r == [x[k]] + w && r[1..] == w;
    LitsExactly(w, r[1..]);
    var front := file[..k];
    assert front == x[..k];
    assert NoLineTerminator(front) by {
      forall i | 0 <= i < k ensures !IsLineTerminator(front[i]) {
        assert front[i] == x[i];
      }
    }
    assert Matches(tail, r);
    MatchesAnySeqFront(tail, file);
  }

  /** The file line "*." + w, with plain w, full-matches exactly the names made of a
      non-empty stretch without a line terminator followed by w: the '.' is not a
      literal dot. */
  lemma StarDotSuffixMeaning(w: string, file: string)
    requires Verbatim(w)
    ensures SubsetFullMatch(CompileFilePattern("*." + w), file)
            <==> exists x :: file == x + w && |x| >= 1 && NoLineTerminator(x)
  {
    StarDotTokens(w);
    if Matches([AnySeq] + ([AnyChar] + Lits(w)), file) {
      AnyOneSuffixSound(w, file);
    }
    if exists x :: file == x + w && |x| >= 1 && NoLineTerminator(x) {
      var x :| file == x + w && |x| >= 1 && NoLineTerminator(x);
      AnyOneSuffixComplete(w, x);
    }
  }

  /** A name that does not end in w never matches "*." + w. */
  lemma StarDotSuffixRejects(w: string, file: string)
    requires Verbatim(w)
    requires !(|file| > |w| && file[|file| - |w|..] == w)
    ensures !SubsetFullMatch(CompileFilePattern("*." + w), file)
  {
    StarDotSuffixMeaning(w, file);
  }

  /** The tokens a file line a?b denotes, for plain a and b. */
  lemma QuestionMarkTokens(a: string, b: string)
    requires Verbatim(a) && Verbatim(b)
    ensures Parse(CompileFilePattern(a + "?" + b)) == Some(Lits(a) + ([AnyOpt] + Lits(b)))
  {
    FilePlainAround(a, '?', b);
    FileTokensAround(a, '?', b);
    FilePatternRenders(a + "?" + b);
    ParseRender(FileTokens(a + "?" + b));
  }

  /** a, then "(.?)", then b: every match is a + b or a + c + b ... */
  lemma PrefixOptSuffixSound(a: string, b: string, file: string)
    requires Matches(Lits(a) + ([AnyOpt] + Lits(b)), file)
    ensures file == a + b || exists c :: file == a + [c] + b && !IsLineTerminator(c)
  {
    var tail := [AnyOpt] + Lits(b);
    assert tail[0] == AnyOpt && tail[1..] == Lits(b);
    MatchesLits(a, tail, file);
    var r := file[|a|..];
    assert file == a + r;
    if Matches(Lits(b), r) {
      LitsExactly(b, r);
    } else {
      assert r != [] && !IsLineTerminator(r[0]) && Matches(Lits(b), r[1..]);
      LitsExactly(b, r[1..]);
      assert r == [r[0]] + r[1..];
      assert file == a + [r[0]] + b;
    }
  }

  /** ... and each of those is matched. */
  lemma PrefixOptSuffixComplete(a: string, b: string, mid: string)
    requires |mid| <= 1 && NoLineTerminator(mid)
    ensures Matches(Lits(a) + ([AnyOpt] + Lits(b)), a + mid + b)
  {
    var file := a + mid + b;
    var tail := [AnyOpt] + Lits(b);
    assert tail[0] == AnyOpt && tail[1..] == Lits(b);
    MatchesLits(a, tail, file);
    var r := file[|a|..];
    assert file[..|a|] == a && r == mid + b;
    if mid == [] {
      assert r == b;
      LitsExactly(b, r);
    } else {
      assert r[0] == mid[0] && r[1..] == b;
      LitsExactly(b, r[1..]);
    }
  }

  /** The file line a?b, with plain a and b, full-matches a + b and every a + c + b for a
      character c that is not a line terminator: '?' may stand for no character. */
  lemma QuestionMarkMeaning(a: string, b: string, file: string)
    requires Verbatim(a) && Verbatim(b)
    ensures SubsetFullMatch(CompileFilePattern(a + "?" + b), file)
            <==> file == a + b || exists c :: file == a + [c] + b && !IsLineTerminator(c)
  {
    QuestionMarkTokens(a, b);
    if Matches(Lits(a) + ([AnyOpt] + Lits(b)), file) {
      PrefixOptSuffixSound(a, b, file);
    }
    if file == a + b {
      assert a + [] + b == file;
      PrefixOptSuffixComplete(a, b, []);
    }
    if exists c :: file == a + [c] + b && !IsLineTerminator(c) {
      var c :| file == a + [c] + b && !IsLineTerminator(c);
      PrefixOptSuffixComplete(a, b, [c]);
    }
  }
}
