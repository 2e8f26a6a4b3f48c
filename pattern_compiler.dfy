/** How one configuration line becomes either a literal name or the source text of a
    regular expression (lib/TAUInstrument.cpp, readUntilToken). Every std::regex_replace
    of the original is a character-class search replaced everywhere, left to right,
    which is a per-character rewrite written here as a recursive function. */
module PatternCompiler {
  import opened Common

  /** What a line of a list section is stored as: a literal for exact comparison, or the
      source of a regex compiled from it. */
  datatype Entry = Literal(text: string) | Pattern(source: string)

  /** regex_replace(s, "\([\s]", "("): a '(' followed by one white-space character loses
      that character. Matches do not overlap, so of "(  " only one space goes. */
  function CollapseOpenParen(s: string): (r: string)
    ensures RemoveSpaces(r) == RemoveSpaces(s)
    ensures |r| <= |s|
    ensures '(' !in s ==> r == s
    decreases |s|
  {
    if s == [] then []
    else if |s| >= 2 && s[0] == '(' && IsSpace(s[1]) then
      var rest := CollapseOpenParen(s[2..]);
      assert s == [s[0]] + [s[1]] + s[2..];
      RemoveSpacesAppend([s[0]] + [s[1]], s[2..]);
      RemoveSpacesAppend("(", rest);
      "(" + rest
    else
      var rest := CollapseOpenParen(s[1..]);
      assert s == [s[0]] + s[1..];
      RemoveSpacesAppend([s[0]], s[1..]);
      RemoveSpacesAppend([s[0]], rest);
      [s[0]] + rest
  }

  /** regex_replace(s, "[\s]\)", ")"): a white-space character directly before ')' is
      deleted. */
  function CollapseCloseParen(s: string): (r: string)
    ensures RemoveSpaces(r) == RemoveSpaces(s)
    ensures |r| <= |s|
    ensures ')' !in s ==> r == s
    decreases |s|
  {
    if s == [] then []
    else if |s| >= 2 && IsSpace(s[0]) && s[1] == ')' then
      var rest := CollapseCloseParen(s[2..]);
      assert s == [s[0]] + [s[1]] + s[2..];
      RemoveSpacesAppend([s[0]] + [s[1]], s[2..]);
      RemoveSpacesAppend(")", rest);
      ")" + rest
    else
      var rest := CollapseCloseParen(s[1..]);
      assert s == [s[0]] + s[1..];
      RemoveSpacesAppend([s[0]], s[1..]);
      RemoveSpacesAppend([s[0]], rest);
      [s[0]] + rest
  }

  /** One step of the open-paren rewrite: a character that does not start a match is
      kept in front of the rewritten rest. */
  lemma CollapseOpenParenCons(c: char, t: string)
    requires c != '(' || t == [] || !IsSpace(t[0])
    ensures CollapseOpenParen([c] + t) == [c] + CollapseOpenParen(t)
  {
    assert ([c] + t)[1..] == t;
  }

  /** The other step: a match in front is replaced by "(". */
  lemma CollapseOpenParenConsPair(w: char, t: string)
    requires IsSpace(w)
    ensures CollapseOpenParen(['(', w] + t) == "(" + CollapseOpenParen(t)
  {
    assert (['(', w] + t)[2..] == t;
  }

  /** The open-paren rewrite works piece by piece on a line cut anywhere a match cannot
      span: not between a '(' and the white-space character after it. */
  lemma {:induction false} CollapseOpenParenSplit(a: string, b: string)
    requires a == [] || a[|a| - 1] != '(' || b == [] || !IsSpace(b[0])
    ensures CollapseOpenParen(a + b) == CollapseOpenParen(a) + CollapseOpenParen(b)
    decreases |a|
  {
    if a == [] {
      assert a + b == b;
    } else if |a| >= 2 && a[0] == '(' && IsSpace(a[1]) {
      var t := a[2..];
      assert t != [] ==> t[|t| - 1] == a[|a| - 1];
      assert a == ['(', a[1]] + t && a + b == ['(', a[1]] + (t + b);
      CollapseOpenParenConsPair(a[1], t);
      CollapseOpenParenConsPair(a[1], t + b);
      CollapseOpenParenSplit(t, b);
      ConcatAssoc("(", CollapseOpenParen(t), CollapseOpenParen(b));
    } else if |a| == 1 {
      assert a + b == [a[0]] + b && a == [a[0]] + [];
      CollapseOpenParenCons(a[0], b);
      CollapseOpenParenCons(a[0], []);
    } else {
      var t := a[1..];
      assert t[|t| - 1] == a[|a| - 1];
      assert a == [a[0]] + t && a + b == [a[0]] + (t + b);
      CollapseOpenParenCons(a[0], t);
      CollapseOpenParenCons(a[0], t + b);
      CollapseOpenParenSplit(t, b);
      ConcatAssoc([a[0]], CollapseOpenParen(t), CollapseOpenParen(b));
    }
  }

  /** A '(' followed by a white-space character: that character is removed. */
  lemma CollapseOpenParenPair(w: char)
    requires IsSpace(w)
    ensures CollapseOpenParen(['(', w]) == "("
  {
    assert ['(', w][2..] == [];
  }

  /** A '(' followed by any other character: both are kept. */
  lemma CollapseOpenParenKeeps(c: char)
    requires !IsSpace(c)
    ensures CollapseOpenParen(['(', c]) == ['(', c]
  {
    assert ['(', c][1..] == [c];
    assert [c][1..] == [];
  }

  /** Any single character is kept. */
  lemma CollapseOpenParenSingle(c: char)
    ensures CollapseOpenParen([c]) == [c]
  {
    assert [c][1..] == [];
  }

  /** One step of the close-paren rewrite: a character that does not start a match is
      kept in front of the rewritten rest. */
  lemma CollapseCloseParenCons(c: char, t: string)
    requires !IsSpace(c) || t == [] || t[0] != ')'
    ensures CollapseCloseParen([c] + t) == [c] + CollapseCloseParen(t)
  {
    assert ([c] + t)[1..] == t;
  }

  /** The other step: a match in front is replaced by ")". */
  lemma CollapseCloseParenConsPair(w: char, t: string)
    requires IsSpace(w)
    ensures CollapseCloseParen([w, ')'] + t) == ")" + CollapseCloseParen(t)
  {
    assert ([w, ')'] + t)[2..] == t;
  }

  /** The close-paren rewrite works piece by piece on a line cut anywhere a match cannot
      span: not between a white-space character and the ')' after it. */
  lemma {:induction false} CollapseCloseParenSplit(a: string, b: string)
    requires a == [] || !IsSpace(a[|a| - 1]) || b == [] || b[0] != ')'
    ensures CollapseCloseParen(a + b) == CollapseCloseParen(a) + CollapseCloseParen(b)
    decreases |a|
  {
    if a == [] {
      assert a + b == b;
    } else if |a| >= 2 && IsSpace(a[0]) && a[1] == ')' {
      var t := a[2..];
      assert t != [] ==> t[|t| - 1] == a[|a| - 1];
      assert a == [a[0], ')'] + t && a + b == [a[0], ')'] + (t + b);
      CollapseCloseParenConsPair(a[0], t);
      CollapseCloseParenConsPair(a[0], t + b);
      CollapseCloseParenSplit(t, b);
      ConcatAssoc(")", CollapseCloseParen(t), CollapseCloseParen(b));
    } else if |a| == 1 {
      assert a + b == [a[0]] + b && a == [a[0]] + [];
      CollapseCloseParenCons(a[0], b);
      CollapseCloseParenCons(a[0], []);
    } else {
      var t := a[1..];
      assert t[|t| - 1] == a[|a| - 1];
      assert a == [a[0]] + t && a + b == [a[0]] + (t + b);
      CollapseCloseParenCons(a[0], t);
      CollapseCloseParenCons(a[0], t + b);
      CollapseCloseParenSplit(t, b);
      ConcatAssoc([a[0]], CollapseCloseParen(t), CollapseCloseParen(b));
    }
  }

  /** A white-space character followed by ')': that character is removed. */
  lemma CollapseCloseParenPair(w: char)
    requires IsSpace(w)
    ensures CollapseCloseParen([w, ')']) == ")"
  {
    assert [w, ')'][2..] == [];
  }

  /** A white-space character followed by anything but ')': both are kept. */
  lemma CollapseCloseParenKeeps(w: char, c: char)
    requires c != ')'
    ensures CollapseCloseParen([w, c]) == [w, c]
  {
    assert [w, c][1..] == [c];
    assert [c][1..] == [];
  }

  /** Any single character is kept. */
  lemma CollapseCloseParenSingle(c: char)
    ensures CollapseCloseParen([c]) == [c]
  {
    assert [c][1..] == [];
  }

  /** Of "((" followed by white space only the blank after the second '(' goes: the first
      '(' is followed by a '(', not by white space. */
  lemma CollapseOpenParenRepeated(w: char, x: string)
    requires IsSpace(w)
    ensures CollapseOpenParen(['(', '(', w] + x) == "((" + CollapseOpenParen(x)
  {
    assert ['(', '(', w] + x == "(" + (['(', w] + x);
    CollapseOpenParenSplit("(", ['(', w] + x);
    CollapseOpenParenSingle('(');
    assert (['(', w] + x)[2..] == x;
  }

  /** Of two white-space characters before ')' only the second goes: matches do not
      overlap and none starts at the first. */
  lemma CollapseCloseParenRepeated(v: char, w: char, x: string)
    requires IsSpace(v) && IsSpace(w)
    ensures CollapseCloseParen([v, w, ')'] + x) == [v, ')'] + CollapseCloseParen(x)
  {
    assert [v, w, ')'] + x == [v] + ([w, ')'] + x);
    CollapseCloseParenSplit([v], [w, ')'] + x);
    CollapseCloseParenSingle(v);
    assert ([w, ')'] + x)[2..] == x;
  }

  /** The clean-up every function-section line gets, before it is classified: first the
      blanks after '(' are collapsed, then those before ')'. */
  function CollapseParens(line: string): (r: string)
    ensures RemoveSpaces(r) == RemoveSpaces(line)
    ensures '(' !in line && ')' !in line ==> r == line
  {
    CollapseCloseParen(CollapseOpenParen(line))
  }

  /** The first pass on `f( x…`: only the blank after the '(' goes. */
  lemma CollapseOpenSignature(f: string, w: char, tail: string)
    requires '(' !in f && '(' !in tail && IsSpace(w)
    ensures CollapseOpenParen(f + (['(', w] + tail)) == f + ("(" + tail)
  {
    CollapseOpenParenSplit(f, ['(', w] + tail);
    CollapseOpenParenSplit(['(', w], tail);
    CollapseOpenParenPair(w);
  }

  /** The second pass on `…x )`: only the blank before the ')' goes. */
  lemma CollapseCloseSignature(front: string, v: char)
    requires ')' !in front && front != [] && !IsSpace(front[|front| - 1]) && IsSpace(v)
    ensures CollapseCloseParen(front + [v, ')']) == front + ")"
  {
    CollapseCloseParenSplit(front, [v, ')']);
    CollapseCloseParenPair(v);
  }

  /** A declaration written with a blank inside each parenthesis, such as `foo( int )`,
      is stored as `foo(int)`: the blank after '(' and the one before ')' go, and the
      name and the argument text are kept. */
  lemma CollapseParensSignature(f: string, w: char, x: string, v: char)
    requires '(' !in f && ')' !in f && '(' !in x && ')' !in x
    requires IsSpace(w) && IsSpace(v) && (x == [] || !IsSpace(x[|x| - 1]))
    ensures CollapseParens(f + ['(', w] + x + [v, ')']) == f + "(" + x + ")"
  {
    var tail := x + [v, ')'];
    var front := f + "(" + x;
    assert f + ['(', w] + x + [v, ')'] == f + (['(', w] + tail);
    assert '(' !in tail by {
      assert forall i :: 0 <= i < |tail| ==> tail[i] == (if i < |x| then x[i] else [v, ')'][i - |x|]);
    }
    CollapseOpenSignature(f, w, tail);
    assert f + ("(" + tail) == front + [v, ')'];
    assert front[|front| - 1] == if x == [] then '(' else x[|x| - 1];
    assert ')' !in front by {
      assert forall i :: 0 <= i < |front| ==> front[i] == (if i < |f| then f[i] else ("(" + x)[i - |f|]);
    }
    CollapseCloseSignature(front, v);
  }

  /** regex_replace(s, "[c]", rep) for a one-character class: every c becomes rep. */
  function ReplaceChar(s: string, c: char, rep: string): string
  {
    if s == [] then [] else (if s[0] == c then rep else [s[0]]) + ReplaceChar(s[1..], c, rep)
  }

  lemma ReplaceCharSingle(x: char, c: char, rep: string)
    ensures ReplaceChar([x], c, rep) == if x == c then rep else [x]
  {
    assert [x][1..] == [];
  }

  /** A string without c is left as it is. */
  lemma {:induction false} ReplaceCharAbsent(s: string, c: char, rep: string)
    requires c !in s
    ensures ReplaceChar(s, c, rep) == s
  {
    if s != [] {
      ReplaceCharAbsent(s[1..], c, rep);
      assert s == [s[0]] + s[1..];
    }
  }

  lemma {:induction false} ReplaceCharAppend(a: string, b: string, c: char, rep: string)
    ensures ReplaceChar(a + b, c, rep) == ReplaceChar(a, c, rep) + ReplaceChar(b, c, rep)
  {
    if a == [] {
      assert a + b == b;
    } else {
      assert (a + b)[1..] == a[1..] + b;
      ReplaceCharAppend(a[1..], b, c, rep);
    }
  }

  /** The regex built from a function line holding '#': '(' ')' and '*' are escaped, in
      that order, and only then '#' becomes the group "(.*)". */
  function CompileFunctionPattern(line: string): string
  {
    var escapedOpen := ReplaceChar(line, '(', "\\(");
    var escapedClose := ReplaceChar(escapedOpen, ')', "\\)");
    var escapedStar := ReplaceChar(escapedClose, '*', "\\*");
    ReplaceChar(escapedStar, '#', "(.*)")
  }

  /** The regex built from a file line holding '*' or '?': '*' becomes "(.*)", then '?'
      becomes "(.?)". Nothing else is escaped, so a '.' stays a regex wildcard. */
  function CompileFilePattern(line: string): string
  {
    ReplaceChar(ReplaceChar(line, '*', "(.*)"), '?', "(.?)")
  }

  /** A line of a function section: parentheses are collapsed first, for literals too; a
      line that then holds '#' becomes a pattern and any other line a literal. */
  function FunctionEntry(line: string): Entry
  {
    var collapsed := CollapseParens(line);
    if '#' in collapsed then Pattern(CompileFunctionPattern(collapsed)) else Literal(collapsed)
  }

  /** Collapsing never adds or removes a '#', so the '#' test on the collapsed line is a
      test on the line as read; a line without parentheses is classified as it was read. */
  lemma FunctionEntryKind(line: string)
    ensures FunctionEntry(line).Pattern? <==> '#' in line
    ensures '(' !in line && ')' !in line && '#' !in line ==> FunctionEntry(line) == Literal(line)
    ensures '(' !in line && ')' !in line && '#' in line ==> FunctionEntry(line) == Pattern(CompileFunctionPattern(line))
  {
    RemoveSpacesKeeps(line, '#');
    RemoveSpacesKeeps(CollapseParens(line), '#');
  }

  /** A line of a file section: a line holding '*' or '?' becomes a pattern, any other
      line is kept verbatim as a literal. */
  function FileEntry(line: string): (e: Entry)
    ensures e.Pattern? <==> ('*' in line || '?' in line)
    ensures e.Literal? ==> e.text == line
  {
    if '*' in line || '?' in line then Pattern(CompileFilePattern(line)) else Literal(line)
  }
}
